/** The token vocabulary shared by the scanner, the structural parser and the
    expression evaluator, and the failures any stage can raise. */
module Tokens {
  import opened Text

  /** The closed set of token kinds (TokenType). */
  datatype TokenType =
    | LBRACE | RBRACE | LPAREN | RPAREN | COMMA | DOT
    | EQ | EQEQ | NE | GE | LE | GT | LT | PLUS | MINUS | STAR | SLASH
    | NUMBER | STRING | IDENT
    | RULE | TEST | WHEN | THEN | GIVEN | EXPECT | AND | OR | NOT
    | TRUE | FALSE | NULL | UNDEFINED
    | NEWLINE | EOF

  /** A token: its kind, its text, and the 1-based line and column it is
      reported at. */
  datatype Token = Token(ttype: TokenType, lexeme: string, line: nat, col: nat)

  /** The enum constant's name, as Java's Enum.toString prints it. */
  function TypeName(t: TokenType): string
  {
    match t
    case LBRACE => "LBRACE"  case RBRACE => "RBRACE"  case LPAREN => "LPAREN"
    case RPAREN => "RPAREN"  case COMMA => "COMMA"    case DOT => "DOT"
    case EQ => "EQ"          case EQEQ => "EQEQ"      case NE => "NE"
    case GE => "GE"          case LE => "LE"          case GT => "GT"
    case LT => "LT"          case PLUS => "PLUS"      case MINUS => "MINUS"
    case STAR => "STAR"      case SLASH => "SLASH"    case NUMBER => "NUMBER"
    case STRING => "STRING"  case IDENT => "IDENT"    case RULE => "RULE"
    case TEST => "TEST"      case WHEN => "WHEN"      case THEN => "THEN"
    case GIVEN => "GIVEN"    case EXPECT => "EXPECT"  case AND => "AND"
    case OR => "OR"          case NOT => "NOT"        case TRUE => "TRUE"
    case FALSE => "FALSE"    case NULL => "NULL"      case UNDEFINED => "UNDEFINED"
    case NEWLINE => "NEWLINE" case EOF => "EOF"
  }

  /** The kind a scanned word gets: the keyword whose name is its lower-case
      form, or IDENT. */
  function WordType(lower: string): TokenType
  {
    match lower
    case "rule" => RULE
    case "test" => TEST
    case "when" => WHEN
    case "then" => THEN
    case "given" => GIVEN
    case "expect" => EXPECT
    case "and" => AND
    case "or" => OR
    case "not" => NOT
    case "true" => TRUE
    case "false" => FALSE
    case "null" => NULL
    case "undefined" => UNDEFINED
    case _ => IDENT
  }

  /** The thirteen keywords of the language. */
  const Keywords: set<string> :=
    {"rule", "test", "when", "then", "given", "expect", "and", "or", "not",
     "true", "false", "null", "undefined"}

  /** The kinds a word can get besides IDENT. */
  predicate IsKeywordType(t: TokenType) {
    t in {RULE, TEST, WHEN, THEN, GIVEN, EXPECT, AND, OR, NOT, TRUE, FALSE, NULL, UNDEFINED}
  }

  /** A word is IDENT exactly when its lower-case form is no keyword, and
      otherwise it is one of the keyword kinds. */
  lemma WordTypeIsKeywordOrIdent(lower: string)
    ensures WordType(lower) == IDENT <==> lower !in Keywords
    ensures WordType(lower) == IDENT || IsKeywordType(WordType(lower))
  {
  }

  /** The "@line:col" tail that both Token.toString and BizNode.toString end with. */
  function PositionSuffix(line: nat, col: nat): string
  {
    "@" + NatToString(line) + ":" + NatToString(col)
  }

  /** The suffix is readable: splitting it at its only ':' gives back the line
      and the column. */
  lemma {:induction false} PositionSuffixReadBack(line: nat, col: nat)
    ensures var s := PositionSuffix(line, col);
      && s[0] == '@'
      && SplitFirst(s[1..], ':') == [NatToString(line), NatToString(col)]
      && DigitsValue(NatToString(line)) == line
      && DigitsValue(NatToString(col)) == col
  {
    var l, c := NatToString(line), NatToString(col);
    assert PositionSuffix(line, col)[1..] == l + [':'] + c;
    assert ':' !in l && ':' !in c by {
      assert forall k :: 0 <= k < |l| ==> l[k] != ':';
      assert forall k :: 0 <= k < |c| ==> c[k] != ':';
    }
    SplitFirstOfJoined(l, ':', c);
    NatToStringRoundTrip(line);
    NatToStringRoundTrip(col);
  }

  /** Token.toString of the standalone lexer: TYPE('lexeme')@line:col. */
  function TokenString(t: Token): string
  {
    TypeName(t.ttype) + "('" + t.lexeme + "')" + PositionSuffix(t.line, t.col)
  }

  /** The rendering is the kind's name, the lexeme in quotes and brackets,
      and the position; the lexeme is read back from between the brackets. */
  lemma TokenStringShape(t: Token)
    ensures var r := TokenString(t); var n := TypeName(t.ttype); var p := PositionSuffix(t.line, t.col);
      && |n| + |p| + 4 <= |r|
      && r[..|n|] == n && r[|r| - |p|..] == p
      && r[|n|..|r| - |p|] == "('" + t.lexeme + "')"
      && r[|n| + 2..|r| - |p| - 2] == t.lexeme
  {
    var r := TokenString(t);
    var n := TypeName(t.ttype);
    var p := PositionSuffix(t.line, t.col);
    var m := "('" + t.lexeme + "')";
    assert r == n + m + p;
    assert r[|n|..|r| - |p|] == m;
    assert m[2..|m| - 2] == t.lexeme;
  }

  datatype Option<+T> = None | Some(value: T)

  /** What a scanning error is about. */
  datatype LexIssue = BangWithoutEquals | UnterminatedString | EscapeAtEnd | UnrecognizedChar(c: char)

  /** The construct the structural parser was looking for. */
  datatype Expected =
    | RuleOrTest | EndOfInput | KeywordRule | RuleName | KeywordWhen | KeywordThen
    | TargetName | AssignSign | KeywordTest | TestName | OpenBrace | GivenOrExpect
    | CloseBrace | KeywordGiven | KeywordExpect

  /** What went wrong while re-reading an expression. */
  datatype EvalProblem = EofExpected | MissingRParen | IdentAfterDot | InvalidExpression | NumberFormat

  /** The three fatal error kinds, plus the out-of-range index putDeep hits on a
      path made only of dots. Lexical errors carry the reported position;
      parse and expression errors carry the token they stopped at. */
  datatype Failure =
    | LexError(line: nat, col: nat, issue: LexIssue)
    | ParseError(expected: Expected, at: Token)
    | EvalError(problem: EvalProblem, at: Token)
    | PathError(path: string)

  /** The outcome of a step that either completes or aborts with a Failure. */
  datatype Outcome = Pass | Fail(error: Failure)

  /** A stage either succeeds with a value or aborts with a Failure. */
  datatype Result<+T> = Ok(value: T) | Err(error: Failure) {
    predicate IsFailure() {
      Err?
    }

    function PropagateFailure<U>(): Result<U>
      requires Err?
    {
      Err(error)
    }

    function Extract(): T
      requires Ok?
    {
      value
    }
  }
}
