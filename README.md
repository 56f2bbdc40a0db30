# BizSpec language pipeline in Dafny

BizSpec is a small language for business rules and their tests:

```
rule "discount" when total >= 100 then rate = 0.1
test "big order" {
  given total = 150
  expect rate == 0.1
}
```

The application tokenizes the source, parses it into a tree of `BizNode`
objects, and runs every test against the rules. This project models those
three stages and the composition of them.

**Scanning.**
- `Lexer` gives the scanner as functions of the source text.
- `Scanning.Scanner` is the object that `Tokenizer` and `BizSpecLexer` are: a cursor `i`, `line`, `col` and an output list.
- Its methods are proved to compute the `Lexer` functions.
- The two Java scanners differ only in the column they record on operator tokens. `Lexer.ColumnRule` selects that column.
- `LexerShapes` states what each kind of token looks like: string literals read back through their escapes, words typed by their lower-case form, two-character operators, and comments that stop at their newline.

**Parsing.**
- `Grammar` gives `Parser.parseProgram` as functions of the token list.
- `Parsing.Parser` is the cursor object, which builds `Ast.BizNode` trees in place.
- Each `BizNode` carries a ghost `Ast.Node` value, the tree that it and its descendants stand for.

**Running.**
- `Values` holds the values of the evaluator: null, Boolean, Integer, Double, String and nested map. It also holds `num`, `truthy` and `compare`.
- `Environment` holds `putDeep`/`getDeep`.
- `Expressions` gives the precedence-climbing evaluator as functions.
- `Evaluation.ExprEval` is the cursor object of the evaluator.
- `TestRun` gives `Evaluator.run` as functions, parametrised by the evaluator of texts.
- `Running` holds the loops of `run`.

**Composition.**
- `Pipeline` composes the stages as the controller's parse and run-tests actions do.

The `*Facts` modules hold the properties of each specification over all inputs.

Some specification functions have no contract of their own; the lemmas named here state them, and their rows are in the table.
- `Values.Num` and `Values.Truthy`: `TruthyIsNonzero`, `ZeroStringTruthy`, `CompareNumbers`, `UnaryValues`, `OrRestLeft`.
- `Values.Add`, `Sub`, `Mul`, `Div`: `AddMulCommute`, `SubLaws`, `DivLaws`. `Values.DblCompare`: `DblCompareOrder`.
- `Values.ParseDouble`: `ParseDigits`, `ParseFraction`, `ZeroStringTruthy`. `Values.Show`: `CompareShown`.
- `Environment.PutDeep` and `Lookup`: `GetAfterPut`, `StoreKeepsOtherPaths`, `PutKeepsOtherNames`, `PutMakesMaps`, `LookupIsWalk`.
- `TestRun.ApplyRule` and `ApplyRules`: `RuleFires`, `ApplyRuleCases`, `FirstTruthyRuleFires`, `FirstRuleWins`, `RulesFailEarly`.
- `TestRun.LoadPart`, `LoadParts` and `LoadGivens`: `AssignmentPart`, `IgnoredPart`, `PartsCompose`, `GivensCompose`.
- `TestRun.RunTest`, `RunTests` and `Run`: `TestVerdict`, `TallyConcat`, `TestsIndependent`, `RunReport`.
- `Grammar.StripQuotes`: `StripQuotesMeaning`. `Grammar.ParseProgram`: `ParseProgramShape`, `ItemsByLexeme`.
- `Lexer.Lex`: `LexEndsWithEof`, `LexLines`, `LexVariants`, `LexWellFormed`. `Lexer.OperatorStep`: `TwoCharOperator`, `OneCharOperator`, `OperatorVariants`. `Lexer.Unescape`: `EscapedOther` (all escapes: `\n`, `\t`, `\r` translated, any other character kept) and `StringBodyOfEscaped`.
- `Expressions.Parse` and `EvalExpr`: `ParseReadsToEof`, `EvalReadsWholeText`, `EmptyTextFails`, `Comparison`.

A thrown exception is an `Err` of `Tokens.Failure`: a scan error, a parse error or an evaluation error. Each carries the token or the position the source reports.

## Model

Paths are relative to the repository root. `Tokenizer.java`, `Evaluator.java`, `Parser.java`, `BizNode.java` and `BizSpecController.java` are under `BizSpec/src/co/edu/unbosque/`.

| member | source | states |
|---|---|---|
| Tokens.WordTypeIsKeywordOrIdent | BizSpec/src/co/edu/unbosque/model/lexer/Tokenizer.java:110-127 | the kind named by a lower-case word is IDENT exactly when the word is not one of the thirteen keywords, and a keyword kind otherwise; `LexerShapes.WordToken` applies it to the lower-cased lexeme, which keeps its casing |
| Tokens.PositionSuffixReadBack | BizSpecLexer.java:30-32 | the `@line:col` tail of a token's string starts with '@', splits at its only ':' into two digit strings, and these read back as the line and the column |
| Tokens.TokenStringShape | BizSpecLexer.java:30-32 | `Token.toString` is the type's name, then `('`, the lexeme and `')`, then the position suffix |
| Lexer.LineEnd | BizSpec/src/co/edu/unbosque/model/lexer/Tokenizer.java:130-131 | a comment is skipped up to the first newline, or the end of text, and not past it |
| Lexer.DigitRunEnd | BizSpec/src/co/edu/unbosque/model/lexer/Tokenizer.java:96 | the digit loop stops at the first non-digit: everything before it is a digit |
| Lexer.IdentRunEnd | BizSpec/src/co/edu/unbosque/model/lexer/Tokenizer.java:108 | the identifier loop stops at the first character that is not an identifier part |
| Lexer.NumberEnd | BizSpec/src/co/edu/unbosque/model/lexer/Tokenizer.java:93-102 | a number consumes at least its first digit and stays inside the text |
| Lexer.NumberEndIsMaximal | BizSpec/src/co/edu/unbosque/model/lexer/Tokenizer.java:93-102 | a NUMBER lexeme is digits with an optional '.'-digits fraction; it is maximal, so no digit follows it and, without a fraction, no '.'-then-digit follows it (`1.x` stops after `1`) |
| Lexer.StringBody | BizSpec/src/co/edu/unbosque/model/lexer/Tokenizer.java:71-90 | a closed body ends just past a '"' inside the text; what the escaped form of a text reads as, and how an unclosed or dangling body ends, is stated by `LexerShapes.StringBodyOfEscaped` and `LexerShapes.EscapedBody` |
| Lexer.CommentStep | BizSpec/src/co/edu/unbosque/model/lexer/Tokenizer.java:130-131 | a `#` or `//` comment emits nothing, stays on its line, holds no newline and stops at the newline or the end of the text, so the newline is left to be scanned |
| Lexer.StringStep | BizSpec/src/co/edu/unbosque/model/lexer/Tokenizer.java:67-91 | a string literal emits at most one token, on the current line, with the column advanced by the characters consumed |
| Lexer.NumberStep | BizSpec/src/co/edu/unbosque/model/lexer/Tokenizer.java:93-102 | a number always succeeds with one token on the current line |
| Lexer.WordStep | BizSpec/src/co/edu/unbosque/model/lexer/Tokenizer.java:104-128 | an identifier or keyword always succeeds with one token on the current line |
| Lexer.PunctStep | BizSpec/src/co/edu/unbosque/model/lexer/Tokenizer.java:24-60 | punctuation and operators emit at most one token on the current line; no EOF and no NEWLINE |
| Lexer.ScanStep | BizSpec/src/co/edu/unbosque/model/lexer/Tokenizer.java:18-61 | one loop turn moves forward and emits at most one token, never EOF; a `\n` emits NEWLINE at its own position and moves to column 1 of the next line |
| LexerShapes.EscapedInText | BizSpec/src/co/edu/unbosque/model/lexer/Tokenizer.java:79-85 | a text holds the escaped form of c character by character from where it is written |
| LexerShapes.EscapeLength | BizSpec/src/co/edu/unbosque/model/lexer/Tokenizer.java:75-88 | the escaped form of c is as long as its characters' escapes together |
| LexerShapes.StringBodyOfEscaped | BizSpec/src/co/edu/unbosque/model/lexer/Tokenizer.java:71-88 | reading a string body over the escaped form of c (quote, backslash, newline, tab and carriage return escaped) gives c, followed by whatever reading on after that form gives |
| LexerShapes.EscapedOther | BizSpec/src/co/edu/unbosque/model/lexer/Tokenizer.java:75-87 | a backslash and the character x after it read as newline, tab or carriage return for `n`, `t`, `r`, and as x itself for any other x |
| LexerShapes.EscapedBody | BizSpec/src/co/edu/unbosque/model/lexer/Tokenizer.java:71-90 | after the escaped form of c, a quote closes the body with content c, a newline or the end of text leaves it unclosed, and a final backslash is the escape-at-end case |
| LexerShapes.StringLiteral | BizSpec/src/co/edu/unbosque/model/lexer/Tokenizer.java:54-91 | a `"` is one STRING token at the opening quote holding the body read through its escapes, with the column past the closing quote; an unclosed body is the unterminated-string error at the opening quote; a final backslash is the escape-at-end error at the end of the text |
| LexerShapes.QuotesInsideLiteral | BizSpec/src/co/edu/unbosque/model/lexer/Tokenizer.java:67-91 | `"\"vip\""` scans as one STRING token whose lexeme is `"vip"`, quotes included |
| LexerShapes.WordToken | BizSpec/src/co/edu/unbosque/model/lexer/Tokenizer.java:104-128 | a letter or `_` starts the maximal identifier run, kept as written, whose kind is the one its lower-case form names |
| LexerShapes.MixedCaseKeyword | BizSpec/src/co/edu/unbosque/model/lexer/Tokenizer.java:110-118 | `AnD` scans as the AND keyword with lexeme `AnD`, then EOF at 1:4 |
| LexerShapes.PunctDispatch | BizSpec/src/co/edu/unbosque/model/lexer/Tokenizer.java:24-60 | a character that starts no blank, newline, comment, string, number or word goes to the switch of punctuation and operators |
| LexerShapes.TwoCharOperator | BizSpec/src/co/edu/unbosque/model/lexer/Tokenizer.java:38-53 | `=`, `!`, `<` or `>` followed by `=` is one two-character operator token with that text, never the one-character operator and a separate `=` |
| LexerShapes.OneCharOperator | BizSpec/src/co/edu/unbosque/model/lexer/Tokenizer.java:38-53 | `=`, `<` or `>` not followed by `=` is the one-character operator |
| LexerShapes.LoneBangFails | BizSpec/src/co/edu/unbosque/model/lexer/Tokenizer.java:42-44 | a `!` not followed by `=` stops the scan with an error at the `!` |
| LexerShapes.BangExample | BizSpec/src/co/edu/unbosque/model/lexer/Tokenizer.java:42-44 | `!x` fails at 1:1 |
| LexerShapes.CommentSkipped | BizSpec/src/co/edu/unbosque/model/lexer/Tokenizer.java:22-35 | scanning from a comment is scanning from the newline that ends it, with the column moved past the comment, and that newline still emits its NEWLINE token |
| LexerShapes.LoneSlash | BizSpec/src/co/edu/unbosque/model/lexer/Tokenizer.java:34-36 | a `/` not followed by `/` is the SLASH token |
| LexerShapes.StepWellFormed | BizSpec/src/co/edu/unbosque/model/lexer/Tokenizer.java:18-61 | every token one loop turn emits has the lexeme its kind calls for |
| LexerShapes.PunctWellFormed | BizSpec/src/co/edu/unbosque/model/lexer/Tokenizer.java:24-53 | each punctuation and operator token has its kind's fixed text |
| LexerShapes.LexFromWellFormed | BizSpec/src/co/edu/unbosque/model/lexer/Tokenizer.java:17-65 | from any position, every token of a successful scan is well formed: a word of the kind its lower-cased lexeme names, a NUMBER lexeme, any string content, or the kind's fixed text |
| LexerShapes.LexWellFormed | BizSpec/src/co/edu/unbosque/model/lexer/Tokenizer.java:17-65 | every token `tokenize` returns is well formed in that sense |
| LexerFacts.NewlinesInConcat | BizSpec/src/co/edu/unbosque/model/lexer/Tokenizer.java:21 | the count of NEWLINE tokens adds up over concatenation |
| LexerFacts.LexFromEndsWithEof | BizSpec/src/co/edu/unbosque/model/lexer/Tokenizer.java:17-63 | from any position, a successful scan ends with one EOF token with an empty lexeme, and no earlier token is EOF |
| LexerFacts.LexEndsWithEof | BizSpec/src/co/edu/unbosque/model/lexer/Tokenizer.java:17-63 | `tokenize` output ends with exactly one EOF token, whose lexeme is empty |
| LexerFacts.LexFromLines | BizSpec/src/co/edu/unbosque/model/lexer/Tokenizer.java:138-143 | every token's line is the starting line plus the number of NEWLINE tokens before it |
| LexerFacts.StepNewlines | BizSpec/src/co/edu/unbosque/model/lexer/Tokenizer.java:20-21 | one loop turn moves the line on by exactly the NEWLINE tokens it emits |
| LexerFacts.LinesConcat | BizSpec/src/co/edu/unbosque/model/lexer/Tokenizer.java:141-143 | the line rule carries over when one step's output is prepended |
| LexerFacts.LexLines | BizSpec/src/co/edu/unbosque/model/lexer/Tokenizer.java:138-143 | in `tokenize` output, a token's line is 1 plus the number of newlines before it |
| LexerFacts.TokensAgreeConcat | BizSpecLexer.java:47-101 | token-by-token agreement between the two scanners is preserved by concatenation |
| LexerFacts.LexFromVariants | BizSpecLexer.java:47-101 | from any position the two scanners fail with the same error or succeed with lists of the same types, lexemes and lines |
| LexerFacts.StepVariants | BizSpecLexer.java:70-85 | one loop turn of the two scanners agrees, except in the column of an operator token |
| LexerFacts.NoOperatorOutsidePunct | BizSpec/src/co/edu/unbosque/model/lexer/Tokenizer.java:20-60 | blanks, newlines, comments, strings, numbers and words never emit an operator token |
| LexerFacts.SelfAgrees | BizSpecLexer.java:47-101 | a step that emits no operator token agrees with itself |
| LexerFacts.OperatorVariants | BizSpecLexer.java:70-85 | `= == > >= < <=` are the same token in both scanners except for the column: just past the operator in one, its start in the other |
| LexerFacts.PunctVariants | BizSpecLexer.java:70-85 | the punctuation and operator step agrees between the two scanners, errors included |
| LexerFacts.LexVariants | BizSpecLexer.java:47-101 | `BizSpecLexer.tokenize` and `Tokenizer.tokenize` accept the same texts with the same errors, and give the same token types, lexemes and lines |
| Scanning.Scanner.constructor | BizSpec/src/co/edu/unbosque/model/lexer/Tokenizer.java:12-15 | a null source is read as the empty text; the scan starts at index 0, line 1, column 1 with no tokens |
| Scanning.Scanner.Peek2 | BizSpec/src/co/edu/unbosque/model/lexer/Tokenizer.java:135 | the character after the current one, when there is one |
| Scanning.Scanner.Advance | BizSpec/src/co/edu/unbosque/model/lexer/Tokenizer.java:138 | one character on: index and column up by one, line unchanged |
| Scanning.Scanner.AdvanceLine | BizSpec/src/co/edu/unbosque/model/lexer/Tokenizer.java:139 | past a newline: index and line up by one, column back to 1 |
| Scanning.Scanner.Add | BizSpec/src/co/edu/unbosque/model/lexer/Tokenizer.java:141 | appends a token at the current line and column; nothing else changes |
| Scanning.Scanner.AddAt | BizSpec/src/co/edu/unbosque/model/lexer/Tokenizer.java:142 | appends a token at the current line and the given start column |
| Scanning.Scanner.AddAndAdvance | BizSpec/src/co/edu/unbosque/model/lexer/Tokenizer.java:143 | appends a token at the column before the character, then steps past it |
| Scanning.Scanner.AddOperator | BizSpec/src/co/edu/unbosque/model/lexer/Tokenizer.java:39-52 | an operator token gets the column past the operator (Tokenizer) or its start column (BizSpecLexer) |
| Scanning.Scanner.SkipComment | BizSpec/src/co/edu/unbosque/model/lexer/Tokenizer.java:130-131 | the cursor stops at the next newline, with the column advanced by the characters skipped |
| Scanning.Scanner.LexString | BizSpec/src/co/edu/unbosque/model/lexer/Tokenizer.java:67-91 | `lexString` does what `Lexer.StringStep` says, including the unterminated and escape-at-end errors |
| Scanning.Scanner.ReadStringBody | BizSpec/src/co/edu/unbosque/model/lexer/Tokenizer.java:71-89 | the loop of `lexString` computes `Lexer.StringBody`, with escapes translated |
| Scanning.Scanner.TakeDigits | BizSpec/src/co/edu/unbosque/model/lexer/Tokenizer.java:96 | the digit loop appends the maximal digit run and moves the cursor past it |
| Scanning.Scanner.LexNumber | BizSpec/src/co/edu/unbosque/model/lexer/Tokenizer.java:93-102 | `lexNumber` does what `Lexer.NumberStep` says |
| Scanning.Scanner.TakeNumber | BizSpec/src/co/edu/unbosque/model/lexer/Tokenizer.java:94-100 | the text built is exactly the source from the first digit to `Lexer.NumberEnd` |
| Scanning.Scanner.TakeFraction | BizSpec/src/co/edu/unbosque/model/lexer/Tokenizer.java:97-100 | the '.' and the digits after it extend the text read so far |
| Scanning.Scanner.LexIdentOrKeyword | BizSpec/src/co/edu/unbosque/model/lexer/Tokenizer.java:104-128 | `lexIdentOrKeyword` does what `Lexer.WordStep` says |
| Scanning.Scanner.ScanOperator | BizSpec/src/co/edu/unbosque/model/lexer/Tokenizer.java:38-53 | the two-character operator is taken when '=' follows, the one-character one otherwise |
| Scanning.Scanner.ScanPunct | BizSpec/src/co/edu/unbosque/model/lexer/Tokenizer.java:24-60 | the switch of `tokenize` is the `//` comment or `Lexer.PunctStep` |
| Scanning.Scanner.ScanOne | BizSpec/src/co/edu/unbosque/model/lexer/Tokenizer.java:19-61 | one turn of the `tokenize` loop does what `Lexer.ScanStep` says |
| Scanning.Scanner.Tokenize | BizSpec/src/co/edu/unbosque/model/lexer/Tokenizer.java:17-65 | `tokenize` gives the tokens before plus `Lexer.LexFrom` from the cursor, and the output list holds them |
| Scanning.PrependTwice | BizSpec/src/co/edu/unbosque/model/lexer/Tokenizer.java:69-88 | prepending to a string scan twice is prepending the concatenation |
| Scanning.PrependTokensTwice | BizSpec/src/co/edu/unbosque/model/lexer/Tokenizer.java:141-143 | prepending tokens to a scan result twice is prepending the concatenation |
| Scanning.TokenizeSource | BizSpecLexer.java:42-45 | a fresh scanner over a possibly null source computes `Lexer.Lex`; a null source gives EOF at 1:1 |
| Ast.RenderReadBack | BizSpec/src/co/edu/unbosque/model/ast/BizNode.java:21-25 | `toString` starts with the kind and ends with `@line:col`; what lies between is empty exactly when the text is, and is `(text)` otherwise |
| Ast.BizNode.constructor | BizSpec/src/co/edu/unbosque/model/ast/BizNode.java:12-17 | a new node keeps kind, text, line and col as given and has no children |
| Ast.BizNode.Add | BizSpec/src/co/edu/unbosque/model/ast/BizNode.java:19 | `add` appends the node after the earlier children, which are unchanged, and returns the same node; only `children` changes |
| Grammar.ReadFrom | BizSpec/src/co/edu/unbosque/model/parser/Parser.java:101-116 | the reading loop stops at a token that stops the span (NEWLINE, EOF or the keyword) |
| Grammar.ReadUntil | BizSpec/src/co/edu/unbosque/model/parser/Parser.java:101-116 | `readUntilKeyword`/`readUntilLineEnd` stop at a NEWLINE, the EOF or the keyword, and never past the end |
| Grammar.SkipNewlines | BizSpec/src/co/edu/unbosque/model/parser/Parser.java:38 | the skip loop stops at the first token that is not NEWLINE |
| Grammar.SkippedAreNewlines | BizSpec/src/co/edu/unbosque/model/parser/Parser.java:38 | every token the skip loop passes is a NEWLINE |
| Grammar.SkipNewline | BizSpec/src/co/edu/unbosque/model/parser/Parser.java:57 | `consumeIf(NEWLINE)` passes exactly one token when it is a NEWLINE, and none otherwise |
| Grammar.ParseLine | BizSpec/src/co/edu/unbosque/model/parser/Parser.java:86-98 | a given or expect line consumes at least its keyword |
| Grammar.LineRest | BizSpec/src/co/edu/unbosque/model/parser/Parser.java:88-90 | the rest of the line never moves the cursor back |
| Grammar.ParseGiven | BizSpec/src/co/edu/unbosque/model/parser/Parser.java:86-91 | `parseGiven` consumes at least one token and stays inside the list |
| Grammar.ParseExpect | BizSpec/src/co/edu/unbosque/model/parser/Parser.java:93-98 | `parseExpect` consumes at least one token and stays inside the list |
| Grammar.RuleOpening | BizSpec/src/co/edu/unbosque/model/parser/Parser.java:49-53 | `rule STRING when … then` consumes at least the `rule` token |
| Grammar.RuleCondition | BizSpec/src/co/edu/unbosque/model/parser/Parser.java:52-53 | the condition and its `then` consume at least the `then` |
| Grammar.RuleHeader | BizSpec/src/co/edu/unbosque/model/parser/Parser.java:49-57 | the reading half of `parseRule` moves forward and stays inside the list |
| Grammar.RuleAssignment | BizSpec/src/co/edu/unbosque/model/parser/Parser.java:54-57 | `IDENT = value` consumes at least the target |
| Grammar.RuleValue | BizSpec/src/co/edu/unbosque/model/parser/Parser.java:56-57 | the value text never moves the cursor back |
| Grammar.ParseRule | BizSpec/src/co/edu/unbosque/model/parser/Parser.java:48-66 | `parseRule` consumes at least one token and stays inside the list |
| Grammar.TestBody | BizSpec/src/co/edu/unbosque/model/parser/Parser.java:75-80 | the body loop ends at a token whose lexeme is `}` |
| Grammar.TestHeader | BizSpec/src/co/edu/unbosque/model/parser/Parser.java:69-72 | `test STRING {` and the blank lines after it move the cursor forward |
| Grammar.ParseTest | BizSpec/src/co/edu/unbosque/model/parser/Parser.java:68-84 | `parseTest` consumes at least one token and stays inside the list |
| Grammar.ParseItem | BizSpec/src/co/edu/unbosque/model/parser/Parser.java:40-42 | one program item moves the cursor forward, so the program loop ends |
| GrammarFacts.SpanEnd | BizSpec/src/co/edu/unbosque/model/parser/Parser.java:103 | a span ends at the first token that stops it |
| GrammarFacts.SpanEndIsFirst | BizSpec/src/co/edu/unbosque/model/parser/Parser.java:103 | no token before the end of a span stops it |
| GrammarFacts.ReadFromText | BizSpec/src/co/edu/unbosque/model/parser/Parser.java:101-116 | the reading loop, resumed with the text read so far, gives the text of the whole span |
| GrammarFacts.ReadUntilText | BizSpec/src/co/edu/unbosque/model/parser/Parser.java:101-116 | the text read is the text of the tokens up to the first stopping token, and none before it stops |
| GrammarFacts.SpanTextIsJoin | BizSpec/src/co/edu/unbosque/model/parser/Parser.java:109-116 | when no lexeme is empty, the text read is the lexemes joined by single spaces |
| GrammarFacts.SpanTextPieces | BizSpec/src/co/edu/unbosque/model/parser/Parser.java:109-116 | when moreover no lexeme holds a space, splitting the text at its spaces gives the lexemes back |
| GrammarFacts.JoinWithSnoc | BizSpec/src/co/edu/unbosque/model/parser/Parser.java:104-105 | joining one more lexeme adds a space and the lexeme |
| GrammarFacts.TestBodyShape | BizSpec/src/co/edu/unbosque/model/parser/Parser.java:75-80 | a test body holds only Given and Expect leaves |
| GrammarFacts.ParseRuleShape | BizSpec/src/co/edu/unbosque/model/parser/Parser.java:59-64 | every Rule has exactly the children [When, Set], and its Set has exactly [Target, Value] |
| GrammarFacts.ParseTestShape | BizSpec/src/co/edu/unbosque/model/parser/Parser.java:73-80 | every Test holds only Given and Expect leaves |
| GrammarFacts.ParseItemShape | BizSpec/src/co/edu/unbosque/model/parser/Parser.java:40-41 | each item is a Rule or a Test of those shapes |
| GrammarFacts.ProgramItemsShape | BizSpec/src/co/edu/unbosque/model/parser/Parser.java:37-43 | the item loop keeps every collected item well-shaped |
| GrammarFacts.ParseProgramShape | BizSpec/src/co/edu/unbosque/model/parser/Parser.java:35-46 | a parsed program is a Program node holding only Rule and Test nodes of those shapes |
| GrammarFacts.ConditionText | BizSpec/src/co/edu/unbosque/model/parser/Parser.java:51-53 | the When text is the spaced lexemes between `when` and the first `then`, NEWLINE or EOF; when `then` is missing on the line, parsing fails at that token |
| GrammarFacts.ValueText | BizSpec/src/co/edu/unbosque/model/parser/Parser.java:54-63 | a parsed rule's target is the IDENT after `then`, its Value text is the spaced lexemes after `=` up to the line end, none of them NEWLINE or EOF, and one NEWLINE after it is consumed |
| GrammarFacts.OpeningEnd | BizSpec/src/co/edu/unbosque/model/parser/Parser.java:49-53 | the opening of a rule ends just after the first `then` of its line |
| GrammarFacts.AssignmentText | BizSpec/src/co/edu/unbosque/model/parser/Parser.java:54-57 | `IDENT = value` keeps the IDENT as the target and the spaced lexemes to the line end as the value |
| GrammarFacts.StripQuotesMeaning | BizSpec/src/co/edu/unbosque/model/parser/Parser.java:120-123 | `stripQuotes` removes exactly one pair of surrounding quotes and leaves any other text as it is |
| GrammarFacts.DottedTargetRejected | BizSpec/src/co/edu/unbosque/model/parser/Parser.java:54-55 | a dotted target such as `a.b` fails with the '=' error at the DOT |
| GrammarFacts.ItemsByLexeme | BizSpec/src/co/edu/unbosque/model/parser/Parser.java:40-42 | an item that does not start with the exact lexeme `rule` or `test` is an error at that token (so `RULE` is rejected) |
| GrammarFacts.LineText | BizSpec/src/co/edu/unbosque/model/parser/Parser.java:86-98 | a given or expect line without its keyword is an error; otherwise its leaf holds the spaced lexemes up to NEWLINE or EOF, and one trailing NEWLINE is consumed |
| GrammarFacts.TestBodyStops | BizSpec/src/co/edu/unbosque/model/parser/Parser.java:75-79 | in a test body any token other than `}`, `given`, `expect` or NEWLINE is an error |
| GrammarFacts.UnclosedTestRejected | BizSpec/src/co/edu/unbosque/model/parser/Parser.java:75-81 | a test still open at the end of the text is rejected at the EOF token |
| Parsing.Parser.constructor | BizSpec/src/co/edu/unbosque/model/parser/Parser.java:13 | a new parser holds the tokens, with the cursor at 0 |
| Parsing.Parser.Consume | BizSpec/src/co/edu/unbosque/model/parser/Parser.java:24-27 | on a match, the token is returned and the cursor moves by exactly one; otherwise an error at the token, with the cursor unchanged |
| Parsing.Parser.ConsumeLex | BizSpec/src/co/edu/unbosque/model/parser/Parser.java:28-31 | the same, matching the lexeme |
| Parsing.Parser.ConsumeIf | BizSpec/src/co/edu/unbosque/model/parser/Parser.java:32 | passes one token exactly when it has the kind |
| Parsing.Parser.ConsumeIfLex | BizSpec/src/co/edu/unbosque/model/parser/Parser.java:33 | passes one token exactly when it has the lexeme |
| Parsing.Parser.SkipNewlines | BizSpec/src/co/edu/unbosque/model/parser/Parser.java:38 | the loop computes `Grammar.SkipNewlines` |
| Parsing.Parser.ReadUntil | BizSpec/src/co/edu/unbosque/model/parser/Parser.java:101-116 | the StringBuilder loops compute `Grammar.ReadUntil` |
| Parsing.Parser.ParseLine | BizSpec/src/co/edu/unbosque/model/parser/Parser.java:86-98 | `parseGiven`/`parseExpect` build a fresh leaf whose tree is `Grammar.ParseLine`'s |
| Parsing.Parser.LineRest | BizSpec/src/co/edu/unbosque/model/parser/Parser.java:88-90 | the rest of the line builds `Grammar.LineRest`'s leaf |
| Parsing.Parser.RuleOpening | BizSpec/src/co/edu/unbosque/model/parser/Parser.java:49-53 | computes `Grammar.RuleOpening`, with the cursor where it ends |
| Parsing.Parser.RuleCondition | BizSpec/src/co/edu/unbosque/model/parser/Parser.java:52-53 | computes `Grammar.RuleCondition` |
| Parsing.Parser.RuleHeader | BizSpec/src/co/edu/unbosque/model/parser/Parser.java:49-57 | computes `Grammar.RuleHeader` |
| Parsing.Parser.RuleAssignment | BizSpec/src/co/edu/unbosque/model/parser/Parser.java:54-57 | computes `Grammar.RuleAssignment` |
| Parsing.Parser.RuleValue | BizSpec/src/co/edu/unbosque/model/parser/Parser.java:56-57 | computes `Grammar.RuleValue` |
| Parsing.Parser.ParseRule | BizSpec/src/co/edu/unbosque/model/parser/Parser.java:48-66 | `parseRule` builds a fresh node tree equal to `Grammar.ParseRule`'s, or fails with its error |
| Parsing.Parser.TestHeader | BizSpec/src/co/edu/unbosque/model/parser/Parser.java:69-72 | computes `Grammar.TestHeader` |
| Parsing.Parser.TestBody | BizSpec/src/co/edu/unbosque/model/parser/Parser.java:75-80 | the body loop adds to the Test node exactly the leaves of `Grammar.TestBody` |
| Parsing.Parser.AddLine | BizSpec/src/co/edu/unbosque/model/parser/Parser.java:76-77 | one given or expect line is parsed and appended to the test's children |
| Parsing.Parser.CloseTest | BizSpec/src/co/edu/unbosque/model/parser/Parser.java:81-82 | the `}` and an optional NEWLINE are consumed |
| Parsing.Parser.ParseTest | BizSpec/src/co/edu/unbosque/model/parser/Parser.java:68-84 | `parseTest` builds a fresh tree equal to `Grammar.ParseTest`'s, or fails with its error |
| Parsing.Parser.TestFrom | BizSpec/src/co/edu/unbosque/model/parser/Parser.java:73-83 | after the opening, the Test node, its body and the closing match `Grammar.TestResult` |
| Parsing.Parser.ParseItem | BizSpec/src/co/edu/unbosque/model/parser/Parser.java:40-42 | one item is `parseRule` or `parseTest` by exact lexeme, as `Grammar.ParseItem` says |
| Parsing.Parser.AddItem | BizSpec/src/co/edu/unbosque/model/parser/Parser.java:40-42 | an item parsed is appended to the Program's children; an error leaves the tree as it was |
| Parsing.Parser.ParseProgram | BizSpec/src/co/edu/unbosque/model/parser/Parser.java:35-46 | `parseProgram` fails exactly when `Grammar.ParseProgram` does, with the same error, and otherwise builds a valid fresh tree equal to it |
| Parsing.Parser.ProgramBody | BizSpec/src/co/edu/unbosque/model/parser/Parser.java:37-43 | the item loop appends exactly the items of `Grammar.ProgramItems` |
| Parsing.Parse | BizSpec/src/co/edu/unbosque/model/parser/Parser.java:35-46 | a fresh parser over a terminated token list computes `Grammar.ParseProgram` |
| Parsing.BuildSet | BizSpec/src/co/edu/unbosque/model/parser/Parser.java:61-63 | the Set node holds the Target and the Value leaves |
| Parsing.BuildRule | BizSpec/src/co/edu/unbosque/model/parser/Parser.java:59-64 | the node calls and adds build the tree `Rule(When, Set(Target, Value))` |
| Values.Neg | BizSpec/src/co/edu/unbosque/model/lexer/Evaluator.java:264 | negation keeps NaN and flips the sign of every other number |
| Values.DblCompareOrder | BizSpec/src/co/edu/unbosque/model/lexer/Evaluator.java:314 | `Double.compare` is a total order: values in {-1,0,1}, antisymmetric, 0 exactly on equal doubles, transitive |
| Values.DecimalOfDigits | BizSpec/src/co/edu/unbosque/model/lexer/Evaluator.java:272 | a digit run parses as its integer value |
| Values.DecimalOfFraction | BizSpec/src/co/edu/unbosque/model/lexer/Evaluator.java:272 | digits '.' digits parse as the exact decimal |
| Values.ParseDigits | BizSpec/src/co/edu/unbosque/model/lexer/Evaluator.java:272 | `Double.parseDouble` reads a digit string as its integer value |
| Values.ParseFraction | BizSpec/src/co/edu/unbosque/model/lexer/Evaluator.java:272 | `Double.parseDouble` reads digits, '.' and digits as the exact decimal |
| Values.AddMulCommute | BizSpec/src/co/edu/unbosque/model/lexer/Evaluator.java:230-257 | `+` and `*` on doubles commute |
| Values.SubLaws | BizSpec/src/co/edu/unbosque/model/lexer/Evaluator.java:238 | a - b is -(b - a); x - x is zero for a finite x and NaN otherwise |
| Values.DivLaws | BizSpec/src/co/edu/unbosque/model/lexer/Evaluator.java:253 | division by a nonzero finite number is multiplication by its reciprocal; a finite number divided by zero is the infinity of its sign, or NaN for zero |
| Values.TruthyIsNonzero | BizSpec/src/co/edu/unbosque/model/lexer/Evaluator.java:327-333 | for null, Booleans and numbers, `truthy` is being nonzero under `num` |
| Values.ZeroStringTruthy | BizSpec/src/co/edu/unbosque/model/lexer/Evaluator.java:327-333 | the string "0" is truthy although its `num` is zero |
| Values.StrCompare | BizSpec/src/co/edu/unbosque/model/lexer/Evaluator.java:316-318 | `String.compareTo`, as its sign, is in {-1,0,1}; `Values.StrCompareAt` states which sign |
| Values.StrCompareAntisymmetric | BizSpec/src/co/edu/unbosque/model/lexer/Evaluator.java:316-318 | string comparison is antisymmetric and 0 exactly on equal strings |
| Values.Compare | BizSpec/src/co/edu/unbosque/model/lexer/Evaluator.java:308-323 | `compare` is in {-1,0,1}; `Values.CompareNumbers`, `Values.CompareStrings` and `Values.CompareShown` state its value case by case |
| Values.CompareAntisymmetric | BizSpec/src/co/edu/unbosque/model/lexer/Evaluator.java:308-323 | `compare` is antisymmetric, 0 on equal values, and null lies strictly below every non-null value |
| Values.CompareNumbers | BizSpec/src/co/edu/unbosque/model/lexer/Evaluator.java:312-314 | beside a number, two non-null values compare as `Double.compare` of their nums: Integers by value, an Integer against a finite Double by numeric value, and an Integer and a Double of the same value as 0 although they are different values |
| Values.CompareStrings | BizSpec/src/co/edu/unbosque/model/lexer/Evaluator.java:316-318 | two strings compare as `String.compareTo`'s sign |
| Values.StrCompareAt | BizSpec/src/co/edu/unbosque/model/lexer/Evaluator.java:316-318 | at the first index where two strings differ, the sign is the order of the characters there; when one is a prefix of the other, it is the order of the lengths |
| Values.CompareShown | BizSpec/src/co/edu/unbosque/model/lexer/Evaluator.java:322 | a Boolean met by a string compares by its printed form `true` or `false` |
| Environment.Segments | BizSpec/src/co/edu/unbosque/model/lexer/Evaluator.java:124-137 | no segment `putDeep` walks holds a '.' or has blanks around it, and a path without a '.' is the one trimmed segment |
| Environment.GetDeep | BizSpec/src/co/edu/unbosque/model/lexer/Evaluator.java:140-150 | the loop of `getDeep` computes `Lookup` |
| Environment.LookupIsWalk | BizSpec/src/co/edu/unbosque/model/lexer/Evaluator.java:140-150 | the direct lookup of an undotted name agrees with the walk |
| Environment.WalkConcat | BizSpec/src/co/edu/unbosque/model/lexer/Evaluator.java:144-148 | walking a path in two parts is walking the first, then the second |
| Environment.ThroughNonMapIsNull | BizSpec/src/co/edu/unbosque/model/lexer/Evaluator.java:145 | `getDeep` gives null once the path runs through a value that is not a map |
| Environment.WalkStore | BizSpec/src/co/edu/unbosque/model/lexer/Evaluator.java:124-137 | what is stored at a path is found again along it |
| Environment.GetAfterPut | BizSpec/src/co/edu/unbosque/model/lexer/Evaluator.java:124-150 | with trimmed segments, `putDeep` succeeds exactly when the path has a segment, and then `getDeep(putDeep(env,p,v),p) == v` |
| Environment.StoreKeepsOtherPaths | BizSpec/src/co/edu/unbosque/model/lexer/Evaluator.java:124-137 | storing leaves every path that branches off the stored one as it was |
| Environment.EmptyWalk | BizSpec/src/co/edu/unbosque/model/lexer/Evaluator.java:145-147 | nothing is found below an empty map |
| Environment.PutKeepsOtherNames | BizSpec/src/co/edu/unbosque/model/lexer/Evaluator.java:124-137 | `putDeep` changes only the top-level entry of the first segment |
| Environment.PutMakesMaps | BizSpec/src/co/edu/unbosque/model/lexer/Evaluator.java:127-135 | after `putDeep`, every proper prefix of the path leads to a map, replacing what was not one |
| Expressions.NumberLiteral | BizSpec/src/co/edu/unbosque/model/lexer/Evaluator.java:270-273 | a literal without '.' is an Integer of its digits, and one with '.' is a Double |
| Expressions.Relate | BizSpec/src/co/edu/unbosque/model/lexer/Evaluator.java:203-227 | every comparison yields a Boolean |
| Expressions.Arith | BizSpec/src/co/edu/unbosque/model/lexer/Evaluator.java:230-257 | every arithmetic operator yields a Double |
| Expressions.Or | BizSpec/src/co/edu/unbosque/model/lexer/Evaluator.java:183-190 | `or` consumes at least one token and stays inside the list |
| Expressions.OrRest | BizSpec/src/co/edu/unbosque/model/lexer/Evaluator.java:185-188 | the `or` loop never moves the cursor back |
| Expressions.And | BizSpec/src/co/edu/unbosque/model/lexer/Evaluator.java:193-200 | `and` consumes at least one token |
| Expressions.AndRest | BizSpec/src/co/edu/unbosque/model/lexer/Evaluator.java:195-198 | the `and` loop never moves the cursor back |
| Expressions.Cmp | BizSpec/src/co/edu/unbosque/model/lexer/Evaluator.java:203-227 | `cmp` consumes at least one token |
| Expressions.CmpRest | BizSpec/src/co/edu/unbosque/model/lexer/Evaluator.java:205-225 | the `cmp` loop never moves the cursor back |
| Expressions.Sum | BizSpec/src/co/edu/unbosque/model/lexer/Evaluator.java:230-242 | `add` consumes at least one token |
| Expressions.SumRest | BizSpec/src/co/edu/unbosque/model/lexer/Evaluator.java:232-240 | the `add` loop never moves the cursor back |
| Expressions.Product | BizSpec/src/co/edu/unbosque/model/lexer/Evaluator.java:245-257 | `mul` consumes at least one token |
| Expressions.ProductRest | BizSpec/src/co/edu/unbosque/model/lexer/Evaluator.java:247-255 | the `mul` loop never moves the cursor back |
| Expressions.Unary | BizSpec/src/co/edu/unbosque/model/lexer/Evaluator.java:260-267 | `unary` consumes at least one token |
| Expressions.LiteralOf | BizSpec/src/co/edu/unbosque/model/lexer/Evaluator.java:270-277 | exactly NUMBER, STRING, TRUE, FALSE, NULL and UNDEFINED are literals, and only a NUMBER literal can fail |
| Expressions.Primary | BizSpec/src/co/edu/unbosque/model/lexer/Evaluator.java:269-292 | `primary` consumes at least one token |
| Expressions.Group | BizSpec/src/co/edu/unbosque/model/lexer/Evaluator.java:278-282 | a parenthesised expression consumes at least its `)` |
| Expressions.PathFrom | BizSpec/src/co/edu/unbosque/model/lexer/Evaluator.java:285-288 | the dotted-name loop stops at a token that is not DOT |
| Expressions.WithoutNewlines | BizSpec/src/co/edu/unbosque/model/lexer/Evaluator.java:157 | the cleaned list holds no NEWLINE, only tokens of the input, and keeps a final non-NEWLINE token last |
| Expressions.CleanedEofOnlyAtEnd | BizSpec/src/co/edu/unbosque/model/lexer/Evaluator.java:155-157 | dropping NEWLINEs keeps the scanner's EOF as the only and last EOF |
| Expressions.Cleaned | BizSpec/src/co/edu/unbosque/model/lexer/Evaluator.java:153-157 | the cleaned tokens end with their only EOF and hold no NEWLINE; cleaning fails exactly when scanning does |
| Evaluation.ExprEval.constructor | BizSpec/src/co/edu/unbosque/model/lexer/Evaluator.java:166 | the evaluator starts at token 0 over the given tokens and environment |
| Evaluation.ExprEval.Eat | BizSpec/src/co/edu/unbosque/model/lexer/Evaluator.java:170-173 | on a match, the token is returned and the cursor moves by one; otherwise an error at the token, with the cursor unchanged |
| Evaluation.ExprEval.EatIf | BizSpec/src/co/edu/unbosque/model/lexer/Evaluator.java:174 | passes one token exactly when it has the kind |
| Evaluation.ExprEval.Parse | BizSpec/src/co/edu/unbosque/model/lexer/Evaluator.java:176-180 | `parse()` computes `Expressions.Parse` |
| Evaluation.ExprEval.Or | BizSpec/src/co/edu/unbosque/model/lexer/Evaluator.java:183-190 | the `or` loop computes `Expressions.Or` |
| Evaluation.ExprEval.And | BizSpec/src/co/edu/unbosque/model/lexer/Evaluator.java:193-200 | the `and` loop computes `Expressions.And` |
| Evaluation.ExprEval.EatRelation | BizSpec/src/co/edu/unbosque/model/lexer/Evaluator.java:206-224 | the `eatIf` chain of `cmp` passes a comparison operator exactly when one is there |
| Evaluation.ExprEval.Cmp | BizSpec/src/co/edu/unbosque/model/lexer/Evaluator.java:203-227 | the `cmp` loop computes `Expressions.Cmp` |
| Evaluation.ExprEval.EatSum | BizSpec/src/co/edu/unbosque/model/lexer/Evaluator.java:233-239 | passes `+` or `-` exactly when one is there |
| Evaluation.ExprEval.Sum | BizSpec/src/co/edu/unbosque/model/lexer/Evaluator.java:230-242 | the `add` loop computes `Expressions.Sum` |
| Evaluation.ExprEval.EatProduct | BizSpec/src/co/edu/unbosque/model/lexer/Evaluator.java:248-254 | passes `*` or `/` exactly when one is there |
| Evaluation.ExprEval.Product | BizSpec/src/co/edu/unbosque/model/lexer/Evaluator.java:245-257 | the `mul` loop computes `Expressions.Product` |
| Evaluation.ExprEval.Unary | BizSpec/src/co/edu/unbosque/model/lexer/Evaluator.java:260-267 | `unary()` computes `Expressions.Unary` |
| Evaluation.ExprEval.Primary | BizSpec/src/co/edu/unbosque/model/lexer/Evaluator.java:269-292 | `primary()` computes `Expressions.Primary` |
| Evaluation.ExprEval.Literal | BizSpec/src/co/edu/unbosque/model/lexer/Evaluator.java:270-277 | the literal cases compute `Expressions.LiteralOf` and pass the literal's token |
| Evaluation.ExprEval.GroupRest | BizSpec/src/co/edu/unbosque/model/lexer/Evaluator.java:278-282 | the parenthesised case computes `Expressions.Group` |
| Evaluation.ExprEval.Variable | BizSpec/src/co/edu/unbosque/model/lexer/Evaluator.java:283-290 | the name case computes `Expressions.Primary` at the IDENT |
| Evaluation.DropNewlines | BizSpec/src/co/edu/unbosque/model/lexer/Evaluator.java:156-157 | the cleaning loop computes `Expressions.WithoutNewlines` |
| Evaluation.EvalExpr | BizSpec/src/co/edu/unbosque/model/lexer/Evaluator.java:153-159 | `evalExpr` computes `Expressions.EvalExpr` |
| ExpressionFacts.OrRestFacts | BizSpec/src/co/edu/unbosque/model/lexer/Evaluator.java:185-188 | once an `or` has been read the value is a Boolean, and a truthy left operand keeps the result truthy; `ExpressionFacts.OrRestLeft` gives the exact value |
| ExpressionFacts.AndRestFacts | BizSpec/src/co/edu/unbosque/model/lexer/Evaluator.java:195-198 | once an `and` has been read the value is a Boolean, and a falsy left operand keeps the result falsy; `ExpressionFacts.AndRestLeft` gives the exact value |
| ExpressionFacts.OneOperator | BizSpec/src/co/edu/unbosque/model/lexer/Evaluator.java:185-198 | `x or y` with no further `or` is the Boolean of x's or y's truthiness, and `x and y` the Boolean of both |
| ExpressionFacts.OrRestLeft | BizSpec/src/co/edu/unbosque/model/lexer/Evaluator.java:185-188 | the `or` loop reads the same tokens and fails the same way whatever the left operand; after an `or` its value is the Boolean of the left operand's truthiness or that of the chain started from false |
| ExpressionFacts.AndRestLeft | BizSpec/src/co/edu/unbosque/model/lexer/Evaluator.java:195-198 | the `and` loop likewise: after an `and` its value is the Boolean of the left operand's truthiness and that of the chain started from true |
| ExpressionFacts.UnaryValues | BizSpec/src/co/edu/unbosque/model/lexer/Evaluator.java:260-267 | `not` gives the Boolean negation of its operand's truthiness and unary minus the negated num of its operand, with the operand's end as the cursor |
| ExpressionFacts.DoubleNegation | BizSpec/src/co/edu/unbosque/model/lexer/Evaluator.java:260-265 | `not not x` is x's truthiness as a Boolean and `- - x` is x's num |
| ExpressionFacts.RightOperandAlwaysEvaluated | BizSpec/src/co/edu/unbosque/model/lexer/Evaluator.java:185-198 | no short-circuit: an error in the right operand is the result whatever the left is |
| ExpressionFacts.RelationFacts | BizSpec/src/co/edu/unbosque/model/lexer/Evaluator.java:203-227 | `!=` negates `==`; `<=`/`<` are `>=`/`>` with the operands swapped; equal values are ordered both ways; null equals only null |
| ExpressionFacts.IntegerNeverEqualsResult | BizSpec/src/co/edu/unbosque/model/lexer/Evaluator.java:206-208 | an Integer never `==` the Double that `+ - * /` yield, whatever its value |
| ExpressionFacts.ParseReadsToEof | BizSpec/src/co/edu/unbosque/model/lexer/Evaluator.java:176-180 | `parse` succeeds exactly when `or` reaches EOF; trailing tokens are an error at the first of them |
| ExpressionFacts.EvalReadsWholeText | BizSpec/src/co/edu/unbosque/model/lexer/Evaluator.java:153-159 | `evalExpr` succeeds only when the whole text was read |
| ExpressionFacts.EmptyTextFails | BizSpec/src/co/edu/unbosque/model/lexer/Evaluator.java:291 | the empty text is an invalid-expression error at EOF 1:1 |
| ExpressionFacts.EmptyTextCleaned | BizSpec/src/co/edu/unbosque/model/lexer/Tokenizer.java:63 | the empty text cleans to the EOF token alone |
| ExpressionFacts.EofAloneFails | BizSpec/src/co/edu/unbosque/model/lexer/Evaluator.java:269-291 | EOF alone is an invalid-expression error |
| ExpressionFacts.AtomSum | BizSpec/src/co/edu/unbosque/model/lexer/Evaluator.java:230-267 | a primary value passes unchanged through `mul` and `add` when no operator follows |
| ExpressionFacts.CmpIsWhole | BizSpec/src/co/edu/unbosque/model/lexer/Evaluator.java:176-200 | a `cmp` value that reaches EOF is the value of the expression |
| ExpressionFacts.ErrorClimbs | BizSpec/src/co/edu/unbosque/model/lexer/Evaluator.java:176-267 | a failure of `primary` at the first token is the failure of `parse` |
| ExpressionFacts.ErrorToSum | BizSpec/src/co/edu/unbosque/model/lexer/Evaluator.java:230-267 | the same failure reaches `add` |
| ExpressionFacts.UnclosedGroupFails | BizSpec/src/co/edu/unbosque/model/lexer/Evaluator.java:278-281 | a `(` whose inner expression is not followed by `)` fails at that token |
| ExpressionFacts.Comparison | BizSpec/src/co/edu/unbosque/model/lexer/Evaluator.java:203-227 | `a op b` evaluates to the comparison of the two operands |
| ExpressionFacts.ReadSeesOnlyLexemes | BizSpec/src/co/edu/unbosque/model/parser/Parser.java:109-116 | the text kept for a line depends only on the lexemes and where the line stops |
| ExpressionFacts.QuotesLost | BizSpec/src/co/edu/unbosque/model/parser/Parser.java:109-116 | `d == "USA"` is kept as the same text as `d == USA`; with d = "USA", the first is true but the re-read one is false, since USA is a null name |
| ExpressionFacts.SameText | BizSpec/src/co/edu/unbosque/model/parser/Parser.java:109-116 | swapping a token for an IDENT with the same lexeme keeps the line's text |
| ExpressionFacts.UsaLookups | BizSpec/src/co/edu/unbosque/model/lexer/Evaluator.java:140-141 | an undotted name is looked up directly, and a missing one is null |
| ExpressionFacts.NameEquals | BizSpec/src/co/edu/unbosque/model/lexer/Evaluator.java:283-289 | `d == x` is whether d's value equals x's |
| TestRun.FirstOfKind | BizSpec/src/co/edu/unbosque/model/lexer/Evaluator.java:112-116 | the index of the first child of the kind; no earlier child has it |
| TestRun.RulesOf | BizSpec/src/co/edu/unbosque/model/lexer/Evaluator.java:84-96 | at most one rule per child |
| TestRun.TextsOf | BizSpec/src/co/edu/unbosque/model/lexer/Evaluator.java:103-106 | at most one text per child |
| TestRun.TestsOf | BizSpec/src/co/edu/unbosque/model/lexer/Evaluator.java:98-110 | at most one test per child |
| TestRun.ScoreExpects | BizSpec/src/co/edu/unbosque/model/lexer/Evaluator.java:65-73 | one report line per expect |
| TestRun.TallyOf | BizSpec/src/co/edu/unbosque/model/lexer/Evaluator.java:75-76 | every test outcome counts once, as passed or as failed |
| TestRun.Outcomes | BizSpec/src/co/edu/unbosque/model/lexer/Evaluator.java:31 | one outcome per test |
| TestRunFacts.RuleReadBack | BizSpec/src/co/edu/unbosque/model/lexer/Evaluator.java:84-96 | a parsed rule is read back as its name, its When text, and its Target and Value texts |
| TestRunFacts.RulesOfConcat | BizSpec/src/co/edu/unbosque/model/lexer/Evaluator.java:84-96 | `extractRules` keeps program order |
| TestRunFacts.TestsOfConcat | BizSpec/src/co/edu/unbosque/model/lexer/Evaluator.java:98-110 | `extractTests` keeps program order |
| TestRunFacts.ItemsAreRulesOrTests | BizSpec/src/co/edu/unbosque/model/lexer/Evaluator.java:84-110 | every parsed item is read as a rule or as a test |
| TestRunFacts.ChildrenAreGivensOrExpects | BizSpec/src/co/edu/unbosque/model/lexer/Evaluator.java:103-106 | every child of a parsed test is read as a given or as an expect |
| TestRunFacts.ProgramReadWhole | BizSpec/src/co/edu/unbosque/model/lexer/Evaluator.java:84-110 | nothing of a parsed program is lost on the way to the runner |
| TestRunFacts.AssignmentPart | BizSpec/src/co/edu/unbosque/model/lexer/Evaluator.java:39-46 | a part `key=rhs` splits at its first '=', evaluates the trimmed rhs in the environment so far, and stores it at the trimmed key |
| TestRunFacts.SimplePut | BizSpec/src/co/edu/unbosque/model/lexer/Evaluator.java:124-137 | a plain name is stored as a top-level entry and nothing else changes |
| TestRunFacts.GivensCompose | BizSpec/src/co/edu/unbosque/model/lexer/Evaluator.java:37-48 | givens load in order, each seeing what the earlier ones stored; a failure stops everything |
| TestRunFacts.PartsCompose | BizSpec/src/co/edu/unbosque/model/lexer/Evaluator.java:38-47 | the parts of a given load left to right in the same way |
| TestRunFacts.IgnoredPart | BizSpec/src/co/edu/unbosque/model/lexer/Evaluator.java:40-42 | a blank part or one without '=' leaves the environment as it is |
| TestRunFacts.GivensFailEarly | BizSpec/src/co/edu/unbosque/model/lexer/Evaluator.java:37-48 | a failure in the first givens is the failure of loading them all |
| TestRunFacts.GivensStep | BizSpec/src/co/edu/unbosque/model/lexer/Evaluator.java:37-38 | one turn of the givens loop loads the next given's parts; its failure is the result |
| TestRunFacts.PartsFailEarly | BizSpec/src/co/edu/unbosque/model/lexer/Evaluator.java:38-47 | a failure in the first parts is the failure of the given |
| TestRunFacts.SkippedRuleIgnored | BizSpec/src/co/edu/unbosque/model/lexer/Evaluator.java:53 | a rule whose target is already assigned is skipped without evaluating its condition or value |
| TestRunFacts.ApplyRuleDistinct | BizSpec/src/co/edu/unbosque/model/lexer/Evaluator.java:52-62 | one rule step keeps the lines and the assigned targets growing, and a new line is for a new target |
| TestRunFacts.AppliedTargetsDistinct | BizSpec/src/co/edu/unbosque/model/lexer/Evaluator.java:51-62 | no target is set by two rules in one test |
| TestRunFacts.ApplyRuleCases | BizSpec/src/co/edu/unbosque/model/lexer/Evaluator.java:53-61 | a rule step either does nothing, or stores the rule's value at a new target, marks it and reports it |
| TestRunFacts.KeptStep | BizSpec/src/co/edu/unbosque/model/lexer/Evaluator.java:57-58 | storing a new target keeps the values of the targets reported before |
| TestRunFacts.ApplyRuleKept | BizSpec/src/co/edu/unbosque/model/lexer/Evaluator.java:53-61 | with a plain target, a rule step keeps the value of every rule applied before |
| TestRunFacts.FirstRuleWins | BizSpec/src/co/edu/unbosque/model/lexer/Evaluator.java:51-62 | with plain targets, the value each reported rule line carries is the value its target holds once all rules have run: no later rule overwrites it |
| TestRunFacts.RulesFailEarly | BizSpec/src/co/edu/unbosque/model/lexer/Evaluator.java:52-62 | a failure in the first rules is the failure of the rule loop |
| TestRunFacts.RuleFires | BizSpec/src/co/edu/unbosque/model/lexer/Evaluator.java:53-61 | a rule whose target is free: a falsy condition leaves the state as it is; a truthy one stores the value at the target, marks the target and reports the rule with that value |
| TestRunFacts.TurnStep | BizSpec/src/co/edu/unbosque/model/lexer/Evaluator.java:52 | a loop that gets past rule k got to it, and rule k's turn is one rule step on the state then |
| TestRunFacts.FiringTurn | BizSpec/src/co/edu/unbosque/model/lexer/Evaluator.java:53-61 | a rule that fires at its turn adds its target and one report line; any other rule leaves the state as it is |
| TestRunFacts.DoneAtTurn | BizSpec/src/co/edu/unbosque/model/lexer/Evaluator.java:51-58 | the targets assigned when rule k's turn comes are those assigned before and those of the earlier rules that fired |
| TestRunFacts.FiredTargetsMeaning | BizSpec/src/co/edu/unbosque/model/lexer/Evaluator.java:51-58 | a target counts as fired exactly when some earlier rule of that target fired |
| TestRunFacts.FirstTruthyRuleFires | BizSpec/src/co/edu/unbosque/model/lexer/Evaluator.java:51-62 | rule k fires exactly when its target was free before the loop, no earlier rule of the same target fired, and its condition is truthy at its turn: each target gets the value of its first rule whose condition is truthy |
| TestRunFacts.EveryTurnReached | BizSpec/src/co/edu/unbosque/model/lexer/Evaluator.java:52-62 | a rule loop that succeeds reaches the turn of every rule |
| TestRunFacts.ScoreMeaning | BizSpec/src/co/edu/unbosque/model/lexer/Evaluator.java:65-73 | scoring succeeds exactly when every expect evaluates; each line records its expect's truthiness; all pass exactly when every expect is truthy |
| TestRunFacts.ScoreFailEarly | BizSpec/src/co/edu/unbosque/model/lexer/Evaluator.java:66-67 | a failure in the first expects is the failure of the scoring |
| TestRunFacts.TallyFailEarly | BizSpec/src/co/edu/unbosque/model/lexer/Evaluator.java:31 | a failure among the first tests is the failure of the run |
| TestRunFacts.TallyStep | BizSpec/src/co/edu/unbosque/model/lexer/Evaluator.java:75-76 | one turn of the test loop adds the test's lines and one pass or fail; a failure is the result of the run |
| TestRunFacts.OutcomeAt | BizSpec/src/co/edu/unbosque/model/lexer/Evaluator.java:31 | the outcome at index j is the outcome of test j alone |
| TestRunFacts.OutcomesConcat | BizSpec/src/co/edu/unbosque/model/lexer/Evaluator.java:31-34 | the outcomes of a + b are those of a, then those of b |
| TestRunFacts.ThenCombine | BizSpec/src/co/edu/unbosque/model/lexer/Evaluator.java:75-76 | adding an outcome commutes with piecing two tallies together |
| TestRunFacts.TallyConcat | BizSpec/src/co/edu/unbosque/model/lexer/Evaluator.java:29-77 | the tally of a + b is pieced together from the tallies of a and b |
| TestRunFacts.TestsIndependent | BizSpec/src/co/edu/unbosque/model/lexer/Evaluator.java:31-34 | each test starts from an empty environment: running a + b is running a and running b, lines concatenated and counts added |
| TestRunFacts.TestVerdict | BizSpec/src/co/edu/unbosque/model/lexer/Evaluator.java:65-76 | a test's lines start with its title and end with its verdict, and it passes exactly when every expect is truthy after the rules |
| TestRunFacts.TestRules | BizSpec/src/co/edu/unbosque/model/lexer/Evaluator.java:51-62 | in a test no target is set twice, and with plain targets each reported value is what the expects see |
| TestRunFacts.RunReport | BizSpec/src/co/edu/unbosque/model/lexer/Evaluator.java:23-27 | the report starts with the header; with no tests it is the no-tests line alone; otherwise it ends with a summary whose passed + failed is the number of tests |
| Running.Child | BizSpec/src/co/edu/unbosque/model/lexer/Evaluator.java:112-116 | `child` returns the first child of the kind, or null |
| Running.ChildText | BizSpec/src/co/edu/unbosque/model/lexer/Evaluator.java:117-120 | `childText` is that child's text, or empty |
| Running.ExtractRules | BizSpec/src/co/edu/unbosque/model/lexer/Evaluator.java:84-96 | the loop over the tree computes `TestRun.RulesOf` |
| Running.TestOfNode | BizSpec/src/co/edu/unbosque/model/lexer/Evaluator.java:102-106 | the inner loop computes `TestRun.TestOf` |
| Running.ExtractTests | BizSpec/src/co/edu/unbosque/model/lexer/Evaluator.java:98-110 | the loop computes `TestRun.TestsOf` |
| Running.LoadParts | BizSpec/src/co/edu/unbosque/model/lexer/Evaluator.java:38-47 | the parts loop computes `TestRun.LoadParts` |
| Running.LoadGivens | BizSpec/src/co/edu/unbosque/model/lexer/Evaluator.java:34-48 | the givens loop, from a fresh environment, computes `TestRun.LoadGivens` |
| Running.ApplyRules | BizSpec/src/co/edu/unbosque/model/lexer/Evaluator.java:51-62 | the rule loop computes `TestRun.ApplyRules` |
| Running.ScoreExpects | BizSpec/src/co/edu/unbosque/model/lexer/Evaluator.java:65-73 | the expect loop computes `TestRun.ScoreExpects` |
| Running.RunTest | BizSpec/src/co/edu/unbosque/model/lexer/Evaluator.java:32-76 | the body of the test loop computes `TestRun.RunTest` |
| Running.RunTests | BizSpec/src/co/edu/unbosque/model/lexer/Evaluator.java:29-77 | the test loop, with its counters, computes `TestRun.RunTests` |
| Running.Run | BizSpec/src/co/edu/unbosque/model/lexer/Evaluator.java:18-81 | `run` over a valid tree computes `TestRun.Run` |
| Pipeline.ParsedProgram | BizSpec/src/co/edu/unbosque/controller/BizSpecController.java:41-46 | a scan error is the parse result; a parsed source is a well-shaped Program whose every item is one rule or one test |
| Pipeline.RunSourceReport | BizSpec/src/co/edu/unbosque/controller/BizSpecController.java:56-63 | a tokenize or parse error is the result; otherwise the report has the header, the no-tests line when there are none, and a summary counting every test |
| Pipeline.RunTests | BizSpec/src/co/edu/unbosque/controller/BizSpecController.java:56-63 | Tokenizer, then Parser, then `run`, over a possibly null source, computes `RunSource` |

## Left out

- Floating point. A Double is modelled as an exact extended real (`Values.Dbl`): a finite real, either infinity, or NaN. There is no rounding and no signed zero. Division by zero gives an infinity or NaN, as IEEE 754 does, but every finite result is exact.
- `Values.ParseDouble` covers decimal digits with an optional '.', surrounding blanks, `NaN`, and `Infinity` with a sign. Exponents, hexadecimal forms and type suffixes such as `1d` read as not a number.
- `Integer.parseInt` overflow: a literal above 2147483647 is an evaluation error, where Java throws `NumberFormatException`. The message text is not modelled.
- The last case of `compare`, for two non-strings and non-numbers, calls `Comparable.compareTo` or compares `String.valueOf`. The model compares Booleans as Java does and strings against Booleans by their text. Cases that involve a map's rendering give 0.
- `putDeep` works in place on Java maps. The model uses value semantics, so a map copied into another path by a given or rule is a copy, not an alias. Later writes through one path are not seen through the other.
- Unicode. `Character.isLetter` and `isLetterOrDigit` are approximated by the ASCII letters and digits, and `toLowerCase` by ASCII lower-casing. A character is one `char` of the model, where Java counts UTF-16 code units: a supplementary character such as an emoji advances Java's column by 2 and the model's by 1, and `String.compareTo` orders surrogate pairs by code unit, where `Values.StrCompare` orders by character.
- The text of the report. `run` builds a Spanish text report with check-mark glyphs and `stringify` of values. The model gives a list of structured lines (header, no-tests line, test title, applied rule, expect result, verdict, summary) that carry the same information.
- Exception messages. Every error is a `Failure` naming the problem and the token or position, not the message text.
- The view: `BizSpecFrame`, `TokenTableModel` and `AplMain`. Also the parts of `BizSpecController` that talk to the view, and its tokenize-only action, which is `Lexer.Lex` itself.
- `BizSpecLexer.main`, a demo that prints to the console.
- `Parser.stripQuotes` is modelled (`Grammar.StripQuotes`, stated by `GrammarFacts.StripQuotesMeaning`). The scanner drops a literal's own quotes, but escaped quotes reach the lexeme (`LexerShapes.QuotesInsideLiteral`: `"\"vip\""` gives `"vip"`), and then `stripQuotes` removes them from the rule or test name. No lemma composes the two over the whole parser.
- The string literal round trip is stated in pieces: `EscapedInText` (the escaped form sits in the text), `StringBodyOfEscaped` (it reads back as the content), `EscapedBody` (how the body ends) and `StringLiteral` (the STRING token or error at a quote). No single lemma composes them into "scanning `"` + Escape(c) + `"` gives STRING c" for every c; `QuotesInsideLiteral` composes them for one literal.
- `Running`: `run`'s nested loops are one method per loop nest. The methods take the evaluator as a parameter; `Running.Run` passes `Expressions.EvalExpr`. The imperative `Evaluation.EvalExpr` is proved equal to that function separately, rather than being called from the loops.
- TestRunFacts.FirstRuleWins: stated for rules whose targets are plain names, as the parser's single-IDENT targets always are. For targets with blanks or dots, a later rule can overwrite part of an earlier one through `putDeep`.
- ExpressionFacts.QuotesLost: stated over the token lists of the line `d == "USA"` and its re-scanned text, not over the source string.
- Environment.GetAfterPut: stated for paths whose segments are already trimmed. `putDeep` trims segments and `getDeep` does not, so a path with blanks around a dot is stored under one name and looked up under another.
