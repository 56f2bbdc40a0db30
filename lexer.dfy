/** What the BizSpec scanner produces, as functions of the source text.

    Tokenizer.tokenize and the standalone BizSpecLexer.tokenize are the same
    scanner except for the column they record on the operator tokens
    = == != > >= < <= : the first records the column just past the operator,
    the second the operator's first column. ColumnRule selects between them. */
module Lexer {
  import opened Text
  import opened Tokens

  datatype ColumnRule = AfterOperator | AtOperatorStart

  /** The effect of scanning from one position: the tokens emitted (none or
      one), the next index and the line and column reached. */
  datatype Step = Step(emitted: seq<Token>, next: nat, line: nat, col: nat)

  /** The operator tokens whose column depends on the rule. */
  predicate IsOperator(t: TokenType) {
    t in {EQ, EQEQ, NE, GT, GE, LT, LE}
  }

  /** The one-character tokens other than the operators and '/'. */
  predicate IsSymbol(c: char) {
    c in "{}(),.+-*"
  }

  function SymbolType(c: char): TokenType
    requires IsSymbol(c)
  {
    match c
    case '{' => LBRACE
    case '}' => RBRACE
    case '(' => LPAREN
    case ')' => RPAREN
    case ',' => COMMA
    case '.' => DOT
    case '+' => PLUS
    case '-' => MINUS
    case '*' => STAR
  }

  /** The index of the first '\n' at or after j, or the end of the text
      (skipComment / skipLine). */
  function LineEnd(src: string, j: nat): (e: nat)
    requires j <= |src|
    ensures j <= e <= |src|
    ensures forall k :: j <= k < e ==> src[k] != '\n'
    ensures e < |src| ==> src[e] == '\n'
    decreases |src| - j
  {
    if j == |src| || src[j] == '\n' then j else LineEnd(src, j + 1)
  }

  /** The end of the longest run of digits starting at j. */
  function DigitRunEnd(src: string, j: nat): (e: nat)
    requires j <= |src|
    ensures j <= e <= |src|
    ensures forall k :: j <= k < e ==> IsDigit(src[k])
    ensures e < |src| ==> !IsDigit(src[e])
    decreases |src| - j
  {
    if j < |src| && IsDigit(src[j]) then DigitRunEnd(src, j + 1) else j
  }

  /** The end of the longest run of identifier characters starting at j. */
  function IdentRunEnd(src: string, j: nat): (e: nat)
    requires j <= |src|
    ensures j <= e <= |src|
    ensures forall k :: j <= k < e ==> IsIdentPart(src[k])
    ensures e < |src| ==> !IsIdentPart(src[e])
    decreases |src| - j
  {
    if j < |src| && IsIdentPart(src[j]) then IdentRunEnd(src, j + 1) else j
  }

  /** A NUMBER lexeme: digits, optionally '.' and more digits. */
  predicate IsNumberLexeme(s: string) {
    exists d :: 0 < d <= |s| && AllDigits(s[..d]) &&
      (d == |s| || (d + 1 < |s| && s[d] == '.' && AllDigits(s[d + 1..])))
  }


  /** The end of the number starting at the digit src[i] (lexNumber): a
      maximal digit run, extended by '.' and a second run only when a digit
      immediately follows the '.'. */
  function NumberEnd(src: string, i: nat): (e: nat)
    requires i < |src| && IsDigit(src[i])
    ensures i < e <= |src|
  {
    var d := DigitRunEnd(src, i);
    if d + 1 < |src| && src[d] == '.' && IsDigit(src[d + 1]) then DigitRunEnd(src, d + 1) else d
  }

  /** The number scanned is a NUMBER lexeme, and it is maximal: no digit
      follows it, and when it has no fraction no '.'-and-digit follows it. */
  lemma NumberEndIsMaximal(src: string, i: nat)
    requires i < |src| && IsDigit(src[i])
    ensures var e := NumberEnd(src, i);
      && IsNumberLexeme(src[i..e])
      && (e < |src| ==> !IsDigit(src[e]))
      && ('.' !in src[i..e] ==> !(e + 1 < |src| && src[e] == '.' && IsDigit(src[e + 1])))
  {
    var d := DigitRunEnd(src, i);
    var e := NumberEnd(src, i);
    assert src[i..d][..d - i] == src[i..d];
    if d + 1 < |src| && src[d] == '.' && IsDigit(src[d + 1]) {
      assert src[i..e][..d - i] == src[i..d];
      assert src[i..e][d - i + 1..] == src[d + 1..e];
    } else {
      assert forall k :: i <= k < d ==> src[k] != '.';
    }
  }

  /** A word lexeme: an identifier start followed by identifier characters. */
  predicate IsWord(s: string) {
    s != [] && IsIdentStart(s[0]) && forall k :: 1 <= k < |s| ==> IsIdentPart(s[k])
  }

  /** The character an escape sequence stands for: \n, \t and \r are
      translated and every other escaped character stands for itself. */
  function Unescape(c: char): char
  {
    match c
    case 'n' => '\n'
    case 't' => '\t'
    case 'r' => '\r'
    case _ => c
  }

  /** How the body of a string literal ends. */
  datatype StringScan = Closed(content: string, next: nat) | Unclosed | DanglingEscape

  /** Scans a string literal's body from index j (lexString): the content with
      escapes applied and the index after the closing quote; a raw newline or
      the end of the text before the quote leaves it unclosed. */
  function StringBody(src: string, j: nat): (r: StringScan)
    requires j <= |src|
    ensures r.Closed? ==> j < r.next <= |src| && src[r.next - 1] == '"'
    decreases |src| - j
  {
    if j == |src| || src[j] == '\n' then Unclosed
    else if src[j] == '"' then Closed("", j + 1)
    else if src[j] == '\\' then
      if j + 1 == |src| then DanglingEscape
      else Prepend([Unescape(src[j + 1])], StringBody(src, j + 2))
    else Prepend([src[j]], StringBody(src, j + 1))
  }

  function Prepend(s: string, r: StringScan): (r': StringScan)
    ensures r'.Closed? == r.Closed? && (r.Closed? ==> r'.next == r.next)
  {
    match r
    case Closed(c, k) => Closed(s + c, k)
    case _ => r
  }

  /** An operator token, at the column the rule says. */
  function OpToken(t: TokenType, lx: string, line: nat, col: nat, rule: ColumnRule): Token
  {
    Token(t, lx, line, if rule == AfterOperator then col + |lx| else col)
  }

  /** One or two characters of operator: the two-character form when the next
      character completes it. */
  function OperatorStep(src: string, i: nat, line: nat, col: nat, rule: ColumnRule,
                        one: TokenType, two: TokenType): Step
    requires i < |src|
  {
    if i + 1 < |src| && src[i + 1] == '=' then
      Step([OpToken(two, [src[i], '='], line, col, rule)], i + 2, line, col + 2)
    else
      Step([OpToken(one, [src[i]], line, col, rule)], i + 1, line, col + 1)
  }

  /** The shape every step that does not start at a newline has: at most one
      token, on the current line, and the column advanced by the number of
      characters consumed. */
  predicate SameLineStep(r: Result<Step>, src: string, i: nat, line: nat, col: nat)
  {
    r.Ok? ==>
      && i < r.value.next <= |src| && |r.value.emitted| <= 1
      && r.value.line == line && r.value.col == col + (r.value.next - i)
      && forall t :: t in r.value.emitted ==> t.ttype != EOF && t.ttype != NEWLINE && t.line == line
  }

  /** A '#' comment, or a '//' comment (the second '/' is the lookahead). */
  predicate CommentStart(src: string, i: nat)
    requires i < |src|
  {
    src[i] == '#' || (src[i] == '/' && i + 1 < |src| && src[i + 1] == '/')
  }

  /** A comment is skipped up to, not past, the next newline: it emits
      nothing, holds no newline, and stops at the newline or the end. */
  function CommentStep(src: string, i: nat, line: nat, col: nat): (r: Result<Step>)
    requires i < |src| && CommentStart(src, i)
    ensures SameLineStep(r, src, i, line, col) && r.Ok? && r.value.emitted == []
    ensures forall k :: i <= k < r.value.next ==> src[k] != '\n'
    ensures r.value.next < |src| ==> src[r.value.next] == '\n'
  {
    var e := LineEnd(src, i);
    Ok(Step([], e, line, col + (e - i)))
  }

  /** A string literal starting at the quote src[i] (lexString). */
  function StringStep(src: string, i: nat, line: nat, col: nat): (r: Result<Step>)
    requires i < |src| && src[i] == '"'
    ensures SameLineStep(r, src, i, line, col)
  {
    match StringBody(src, i + 1)
    case Closed(content, k) => Ok(Step([Token(STRING, content, line, col)], k, line, col + (k - i)))
    case Unclosed => Err(LexError(line, col, UnterminatedString))
    case DanglingEscape => Err(LexError(line, col + (|src| - i), EscapeAtEnd))
  }

  /** A number starting at the digit src[i] (lexNumber). */
  function NumberStep(src: string, i: nat, line: nat, col: nat): (r: Result<Step>)
    requires i < |src| && IsDigit(src[i])
    ensures SameLineStep(r, src, i, line, col) && r.Ok?
  {
    var e := NumberEnd(src, i);
    Ok(Step([Token(NUMBER, src[i..e], line, col)], e, line, col + (e - i)))
  }

  /** An identifier or keyword starting at src[i] (lexIdentOrKeyword): the
      kind comes from the lower-case form, the lexeme keeps its casing. */
  function WordStep(src: string, i: nat, line: nat, col: nat): (r: Result<Step>)
    requires i < |src| && IsIdentStart(src[i])
    ensures SameLineStep(r, src, i, line, col) && r.Ok?
  {
    var e := IdentRunEnd(src, i + 1);
    var lx := src[i..e];
    Ok(Step([Token(WordType(Lower(lx)), lx, line, col)], e, line, col + (e - i)))
  }

  /** The punctuation and operator characters, and the error for anything
      else the scanner does not recognise. */
  function PunctStep(src: string, i: nat, line: nat, col: nat, rule: ColumnRule): (r: Result<Step>)
    requires i < |src|
    ensures SameLineStep(r, src, i, line, col)
  {
    var c := src[i];
    if IsSymbol(c) then Ok(Step([Token(SymbolType(c), [c], line, col)], i + 1, line, col + 1))
    else if c == '/' then Ok(Step([Token(SLASH, "/", line, col)], i + 1, line, col + 1))
    else if c == '=' then Ok(OperatorStep(src, i, line, col, rule, EQ, EQEQ))
    else if c == '>' then Ok(OperatorStep(src, i, line, col, rule, GT, GE))
    else if c == '<' then Ok(OperatorStep(src, i, line, col, rule, LT, LE))
    else if c == '!' then
      if i + 1 < |src| && src[i + 1] == '=' then Ok(Step([OpToken(NE, "!=", line, col, rule)], i + 2, line, col + 2))
      else Err(LexError(line, col, BangWithoutEquals))
    else Err(LexError(line, col, UnrecognizedChar(c)))
  }

  /** One iteration of the scanning loop of tokenize, from index i. Blanks
      produce nothing, a newline produces a NEWLINE token at its own position
      and moves to column 1 of the next line. */
  function ScanStep(src: string, i: nat, line: nat, col: nat, rule: ColumnRule): (r: Result<Step>)
    requires i < |src|
    ensures r.Ok? ==> i < r.value.next <= |src| && |r.value.emitted| <= 1
    ensures r.Ok? ==> forall t :: t in r.value.emitted ==> t.ttype != EOF && t.line == line
    ensures src[i] == '\n' ==>
      r == Ok(Step([Token(NEWLINE, "\n", line, col)], i + 1, line + 1, 1))
    ensures src[i] != '\n' ==> SameLineStep(r, src, i, line, col)
  {
    var c := src[i];
    if c == ' ' || c == '\t' || c == '\r' then Ok(Step([], i + 1, line, col + 1))
    else if c == '\n' then Ok(Step([Token(NEWLINE, "\n", line, col)], i + 1, line + 1, 1))
    else if CommentStart(src, i) then CommentStep(src, i, line, col)
    else if c == '"' then StringStep(src, i, line, col)
    else if IsDigit(c) then NumberStep(src, i, line, col)
    else if IsIdentStart(c) then WordStep(src, i, line, col)
    else PunctStep(src, i, line, col, rule)
  }

  /** The tokens scanned from index i on, ending with EOF, or the first error. */
  function LexFrom(src: string, i: nat, line: nat, col: nat, rule: ColumnRule): Result<seq<Token>>
    requires i <= |src|
    decreases |src| - i
  {
    if i == |src| then Ok([Token(EOF, "", line, col)])
    else
      match ScanStep(src, i, line, col, rule)
      case Err(e) => Err(e)
      case Ok(s) => PrependTokens(s.emitted, LexFrom(src, s.next, s.line, s.col, rule))
  }

  function PrependTokens(ts: seq<Token>, r: Result<seq<Token>>): Result<seq<Token>>
  {
    match r
    case Ok(us) => Ok(ts + us)
    case Err(e) => Err(e)
  }

  /** tokenize: the whole text scanned from line 1, column 1. */
  function Lex(src: string, rule: ColumnRule): Result<seq<Token>>
  {
    LexFrom(src, 0, 1, 1, rule)
  }

  /** The constructors map a null source to the empty text. */
  function SourceText(source: Option<string>): string
  {
    match source
    case None => ""
    case Some(s) => s
  }
}
