/** What each kind of token the scanner emits looks like (module Lexer):
    string literals read back through their escapes, words typed by their
    lower-case form, two-character operators preferred to their first
    character, and comments that vanish up to their newline. */
module LexerShapes {
  import opened Text
  import opened Tokens
  import opened Lexer

  // ----- string literals -----

  /** How a character is written inside a string literal: the quote, the
      backslash, the newline, the tab and the carriage return are escaped,
      everything else is itself. */
  function EscapeChar(c: char): (r: string)
    ensures 1 <= |r| <= 2
  {
    if c == '"' then ['\\', '"']
    else if c == '\\' then ['\\', '\\']
    else if c == '\n' then ['\\', 'n']
    else if c == '\t' then ['\\', 't']
    else if c == '\r' then ['\\', 'r']
    else [c]
  }

  /** A text written as the body of a string literal. */
  function Escape(s: string): string
  {
    if s == [] then [] else EscapeChar(s[0]) + Escape(s[1..])
  }

  /** The text holds the escaped form of c from index j on, character by
      character. */
  ghost predicate EscapedAt(src: string, j: nat, c: string)
    decreases |c|
  {
    j <= |src| &&
    (c == [] ||
      var e := EscapeChar(c[0]);
      && j + |e| <= |src| && src[j] == e[0] && (|e| == 2 ==> src[j + 1] == e[1])
      && EscapedAt(src, j + |e|, c[1..]))
  }

  /** A text that has the escaped form of c written from index |p| on. */
  lemma {:induction false} EscapedInText(p: string, c: string, q: string)
    ensures EscapedAt(p + Escape(c) + q, |p|, c)
    decreases |c|
  {
    if c != [] {
      var e := EscapeChar(c[0]);
      var rest := Escape(c[1..]);
      var src := p + Escape(c) + q;
      assert src == (p + e) + rest + q;
      EscapedInText(p + e, c[1..], q);
      assert src[|p|] == e[0];
      if |e| == 2 {
        assert src[|p| + 1] == e[1];
      }
    }
  }

  /** The length of the escaped form of c, counted character by character. */
  function EscapedLength(c: string): (n: nat)
    ensures n >= |c|
  {
    if c == [] then 0 else |EscapeChar(c[0])| + EscapedLength(c[1..])
  }

  lemma {:induction false} EscapeLength(c: string)
    ensures |Escape(c)| == EscapedLength(c)
    decreases |c|
  {
    if c != [] {
      EscapeLength(c[1..]);
    }
  }

  /** Reading the escaped form of c from j gives c, followed by whatever
      reading on from the end of that form gives. */
  lemma {:induction false} StringBodyOfEscaped(src: string, j: nat, c: string)
    requires EscapedAt(src, j, c)
    ensures j + EscapedLength(c) <= |src|
    ensures StringBody(src, j) == Prepend(c, StringBody(src, j + EscapedLength(c)))
    decreases |c|
  {
    if c == [] {
      PrependNothing(StringBody(src, j));
    } else {
      var n := j + |EscapeChar(c[0])|;
      var m := j + EscapedLength(c);
      assert m == n + EscapedLength(c[1..]);
      StringBodyOfEscaped(src, n, c[1..]);
      var tail := StringBody(src, m);
      assert StringBody(src, n) == Prepend(c[1..], tail);
      StringBodyOfChar(src, j, c[0]);
      PrependCons(c, tail);
    }
  }

  /** Reading the escaped form of one character gives that character. */
  lemma StringBodyOfChar(src: string, j: nat, ch: char)
    requires var e := EscapeChar(ch); j + |e| <= |src| && src[j] == e[0] && (|e| == 2 ==> src[j + 1] == e[1])
    ensures StringBody(src, j) == Prepend([ch], StringBody(src, j + |EscapeChar(ch)|))
  {
    var e := EscapeChar(ch);
    if |e| == 2 {
      assert Unescape(e[1]) == ch;
    }
  }

  /** A backslash and the character x after it read as one character: \n,
      \t and \r as newline, tab and carriage return, any other x as x
      itself, a quote and a backslash included. */
  lemma EscapedOther(src: string, j: nat, x: char)
    requires j + 1 < |src| && src[j] == '\\' && src[j + 1] == x
    ensures x == 'n' ==> StringBody(src, j) == Prepend(['\n'], StringBody(src, j + 2))
    ensures x == 't' ==> StringBody(src, j) == Prepend(['\t'], StringBody(src, j + 2))
    ensures x == 'r' ==> StringBody(src, j) == Prepend(['\r'], StringBody(src, j + 2))
    ensures x !in "ntr" ==> StringBody(src, j) == Prepend([x], StringBody(src, j + 2))
  {
  }

  lemma PrependNothing(r: StringScan)
    ensures Prepend([], r) == r
  {
    match r
    case Closed(content, k) =>
      assert [] + content == content;
    case _ =>
  }

  lemma PrependCons(c: string, r: StringScan)
    requires c != []
    ensures Prepend([c[0]], Prepend(c[1..], r)) == Prepend(c, r)
  {
    match r
    case Closed(content, k) =>
      assert [c[0]] + (c[1..] + content) == c + content;
    case _ =>
  }

  /** A string literal in the text: a closed body is one STRING token at the
      opening quote holding the body read through its escapes, with the
      column moved past the closing quote; a body cut off by a newline or the
      end of the text is an unterminated-string error at the opening quote,
      and a final backslash is the dangling-escape error at the end of the
      text. With EscapedBody: the escaped form of any text c between quotes
      scans as the STRING token c. */
  lemma StringLiteral(src: string, i: nat, line: nat, col: nat, rule: ColumnRule)
    requires i < |src| && src[i] == '"'
    ensures var b := StringBody(src, i + 1); var r := ScanStep(src, i, line, col, rule);
      && (b.Closed? ==> r == Ok(Step([Token(STRING, b.content, line, col)], b.next, line, col + (b.next - i))))
      && (b.Unclosed? ==> r == Err(LexError(line, col, UnterminatedString)))
      && (b.DanglingEscape? ==> r == Err(LexError(line, col + (|src| - i), EscapeAtEnd)))
  {
    assert ScanStep(src, i, line, col, rule) == StringStep(src, i, line, col);
  }

  /** How the body of a literal ends, given the escaped text it starts with. */
  lemma EscapedBody(src: string, j: nat, c: string)
    requires EscapedAt(src, j, c)
    ensures var m := j + EscapedLength(c); var body := StringBody(src, j);
      && m <= |src|
      && (m < |src| && src[m] == '"' ==> body == Closed(c, m + 1))
      && ((m == |src| || src[m] == '\n') ==> body == Unclosed)
      && (m + 1 == |src| && src[m] == '\\' ==> body == DanglingEscape)
  {
    var m := j + EscapedLength(c);
    StringBodyOfEscaped(src, j, c);
    StringBodyEnd(src, m);
    if m < |src| && src[m] == '"' {
      assert c + "" == c;
    }
  }

  /** How the body ends at the index where the escaped text stops. */
  lemma StringBodyEnd(src: string, m: nat)
    requires m <= |src|
    ensures m < |src| && src[m] == '"' ==> StringBody(src, m) == Closed("", m + 1)
    ensures (m == |src| || src[m] == '\n') ==> StringBody(src, m) == Unclosed
    ensures m + 1 == |src| && src[m] == '\\' ==> StringBody(src, m) == DanglingEscape
  {
  }

  /** A name written with escaped quotes, "\"vip\"", scans as a STRING token
      whose lexeme is "vip" with its quotes. */
  lemma QuotesInsideLiteral(rule: ColumnRule)
    ensures ScanStep("\"\\\"vip\\\"\"", 0, 1, 1, rule) == Ok(Step([Token(STRING, "\"vip\"", 1, 1)], 9, 1, 10))
  {
    QuotedBody();
    StringLiteral("\"\\\"vip\\\"\"", 0, 1, 1, rule);
  }

  lemma QuotedBody()
    ensures StringBody("\"\\\"vip\\\"\"", 1) == Closed("\"vip\"", 9)
  {
    var c := "\"vip\"";
    var src := "\"\\\"vip\\\"\"";
    assert EscapedAt(src, 1, c) by {
      assert EscapedAt(src, 8, []);
      assert EscapedAt(src, 6, c[4..]);
      assert EscapedAt(src, 5, c[3..]);
      assert EscapedAt(src, 4, c[2..]);
      assert EscapedAt(src, 3, c[1..]);
    }
    assert EscapedLength(c) == 7;
    EscapedBody(src, 1, c);
  }

  // ----- words -----

  /** A letter or '_' starts a word: the maximal run of identifier
      characters, kept as written, of the kind its lower-case form names. */
  lemma WordToken(src: string, i: nat, line: nat, col: nat, rule: ColumnRule)
    requires i < |src| && IsIdentStart(src[i])
    ensures var e := IdentRunEnd(src, i + 1); var lx := src[i..e];
      && IsWord(lx) && (e < |src| ==> !IsIdentPart(src[e]))
      && ScanStep(src, i, line, col, rule) == Ok(Step([Token(WordType(Lower(lx)), lx, line, col)], e, line, col + (e - i)))
  {
    WordDispatch(src, i, line, col, rule);
    WordLexeme(src, i);
  }

  lemma WordDispatch(src: string, i: nat, line: nat, col: nat, rule: ColumnRule)
    requires i < |src| && IsIdentStart(src[i])
    ensures ScanStep(src, i, line, col, rule) == WordStep(src, i, line, col)
  {
    assert !IsDigit(src[i]) && !CommentStart(src, i) && src[i] != '"';
  }

  lemma WordLexeme(src: string, i: nat)
    requires i < |src| && IsIdentStart(src[i])
    ensures IsWord(src[i..IdentRunEnd(src, i + 1)])
  {
    var lx := src[i..IdentRunEnd(src, i + 1)];
    assert lx[0] == src[i];
    assert forall k :: 1 <= k < |lx| ==> lx[k] == src[i + k];
  }

  /** Keywords are matched whatever their casing, and the lexeme keeps the
      casing written: AnD is the keyword and. */
  lemma MixedCaseKeyword(rule: ColumnRule)
    ensures Lex("AnD", rule) == Ok([Token(AND, "AnD", 1, 1), Token(EOF, "", 1, 4)])
  {
    var src := "AnD";
    WordToken(src, 0, 1, 1, rule);
    AnDRun();
    AndKeyword();
    var eof := Token(EOF, "", 1, 4);
    assert LexFrom(src, 3, 1, 4, rule) == Ok([eof]);
    assert ScanStep(src, 0, 1, 1, rule) == Ok(Step([Token(AND, src, 1, 1)], 3, 1, 4));
    assert LexFrom(src, 0, 1, 1, rule) == PrependTokens([Token(AND, src, 1, 1)], Ok([eof]));
    assert [Token(AND, src, 1, 1)] + [eof] == [Token(AND, "AnD", 1, 1), Token(EOF, "", 1, 4)];
    assert Lex(src, rule) == LexFrom(src, 0, 1, 1, rule);
  }

  lemma AnDRun()
    ensures IdentRunEnd("AnD", 1) == 3 && "AnD"[0..3] == "AnD"
  {
  }

  lemma AndKeyword()
    ensures WordType(Lower("AnD")) == AND
  {
    var l := Lower("AnD");
    assert |l| == 3 && l[0] == 'a' && l[1] == 'n' && l[2] == 'd';
    assert l == "and";
  }

  // ----- operators and comments -----

  /** The text of each token kind whose lexeme is fixed. */
  function FixedText(t: TokenType): string
  {
    match t
    case LBRACE => "{"   case RBRACE => "}"   case LPAREN => "("  case RPAREN => ")"
    case COMMA => ","    case DOT => "."      case PLUS => "+"    case MINUS => "-"
    case STAR => "*"     case SLASH => "/"    case EQ => "="      case EQEQ => "=="
    case NE => "!="      case GE => ">="      case LE => "<="     case GT => ">"
    case LT => "<"       case NEWLINE => "\n" case EOF => ""
    case _ => ""
  }

  /** A character that starts neither a blank, a newline, a comment, a
      string, a number nor a word is scanned as punctuation. */
  lemma PunctDispatch(src: string, i: nat, line: nat, col: nat, rule: ColumnRule)
    requires i < |src|
    requires var c := src[i];
      !(c == ' ' || c == '\t' || c == '\r' || c == '\n' || CommentStart(src, i) || c == '"' || IsDigit(c) || IsIdentStart(c))
    ensures ScanStep(src, i, line, col, rule) == PunctStep(src, i, line, col, rule)
  {
  }

  /** '=', '!', '<' or '>' followed by '=' is one two-character operator
      token, never the one-character operator and a separate '='. */
  lemma TwoCharOperator(src: string, i: nat, line: nat, col: nat, rule: ColumnRule)
    requires i + 1 < |src| && src[i] in "=!<>" && src[i + 1] == '='
    ensures var r := ScanStep(src, i, line, col, rule);
      && r.Ok? && r.value.next == i + 2 && |r.value.emitted| == 1
      && var t := r.value.emitted[0];
      && IsOperator(t.ttype) && t.lexeme == src[i..i + 2] && FixedText(t.ttype) == t.lexeme
      && t.line == line && t.col == (if rule == AfterOperator then col + 2 else col)
  {
    PunctDispatch(src, i, line, col, rule);
    TwoCharPunct(src, i, line, col, rule);
  }

  lemma TwoCharPunct(src: string, i: nat, line: nat, col: nat, rule: ColumnRule)
    requires i + 1 < |src| && src[i] in "=!<>" && src[i + 1] == '='
    ensures var r := PunctStep(src, i, line, col, rule);
      && r.Ok? && r.value.next == i + 2 && |r.value.emitted| == 1
      && var t := r.value.emitted[0];
      && IsOperator(t.ttype) && t.lexeme == src[i..i + 2] && FixedText(t.ttype) == t.lexeme
      && t.line == line && t.col == (if rule == AfterOperator then col + 2 else col)
  {
    assert !IsSymbol(src[i]) && src[i..i + 2] == [src[i], '='];
  }

  /** '=', '<' or '>' not followed by '=' is a one-character operator. */
  lemma OneCharOperator(src: string, i: nat, line: nat, col: nat, rule: ColumnRule)
    requires i < |src| && src[i] in "=<>" && !(i + 1 < |src| && src[i + 1] == '=')
    ensures var r := ScanStep(src, i, line, col, rule);
      && r.Ok? && r.value.next == i + 1 && |r.value.emitted| == 1
      && var t := r.value.emitted[0];
      && IsOperator(t.ttype) && t.lexeme == [src[i]] && FixedText(t.ttype) == t.lexeme
      && t.line == line && t.col == (if rule == AfterOperator then col + 1 else col)
  {
    PunctDispatch(src, i, line, col, rule);
    assert !IsSymbol(src[i]);
  }

  /** A '!' not followed by '=' stops the scan with an error at the '!'. */
  lemma LoneBangFails(src: string, i: nat, line: nat, col: nat, rule: ColumnRule)
    requires i < |src| && src[i] == '!' && !(i + 1 < |src| && src[i + 1] == '=')
    ensures LexFrom(src, i, line, col, rule) == Err(LexError(line, col, BangWithoutEquals))
  {
    PunctDispatch(src, i, line, col, rule);
    assert !IsSymbol(src[i]);
    assert ScanStep(src, i, line, col, rule) == Err(LexError(line, col, BangWithoutEquals));
  }

  /** "!x" is no text: scanning fails at the '!'. */
  lemma BangExample(rule: ColumnRule)
    ensures Lex("!x", rule) == Err(LexError(1, 1, BangWithoutEquals))
  {
    LoneBangFails("!x", 0, 1, 1, rule);
  }

  /** A '#' or a "//" starts a comment, which emits nothing: scanning from it
      is scanning from the newline that ends it (or the end of the text),
      with the column moved past the comment, so that newline still emits
      its NEWLINE token. */
  lemma CommentSkipped(src: string, i: nat, line: nat, col: nat, rule: ColumnRule)
    requires i < |src| && CommentStart(src, i)
    ensures var e := LineEnd(src, i);
      && (forall k :: i <= k < e ==> src[k] != '\n')
      && LexFrom(src, i, line, col, rule) == LexFrom(src, e, line, col + (e - i), rule)
      && (e < |src| ==> ScanStep(src, e, line, col + (e - i), rule)
                          == Ok(Step([Token(NEWLINE, "\n", line, col + (e - i))], e + 1, line + 1, 1)))
  {
    var e := LineEnd(src, i);
    assert ScanStep(src, i, line, col, rule) == Ok(Step([], e, line, col + (e - i))) by {
      assert ScanStep(src, i, line, col, rule) == CommentStep(src, i, line, col);
    }
    match LexFrom(src, e, line, col + (e - i), rule)
    case Ok(ts) => assert [] + ts == ts;
    case Err(_) =>
  }

  /** A '/' not followed by '/' is the SLASH operator. */
  lemma LoneSlash(src: string, i: nat, line: nat, col: nat, rule: ColumnRule)
    requires i < |src| && src[i] == '/' && !CommentStart(src, i)
    ensures ScanStep(src, i, line, col, rule) == Ok(Step([Token(SLASH, "/", line, col)], i + 1, line, col + 1))
  {
    PunctDispatch(src, i, line, col, rule);
  }

  // ----- every token -----

  /** The kinds of the tokens that are words. */
  predicate IsWordType(t: TokenType) {
    t == IDENT || IsKeywordType(t)
  }

  /** What a token's lexeme is, by its kind: a word of the kind its
      lower-case form names, a NUMBER lexeme, any string content, or the
      kind's fixed text. */
  predicate WellFormed(t: Token) {
    if IsWordType(t.ttype) then IsWord(t.lexeme) && t.ttype == WordType(Lower(t.lexeme))
    else if t.ttype == NUMBER then IsNumberLexeme(t.lexeme)
    else t.ttype == STRING || t.lexeme == FixedText(t.ttype)
  }

  /** Every token of a sequence is well formed. */
  predicate AllWellFormed(ts: seq<Token>) {
    forall k :: 0 <= k < |ts| ==> WellFormed(ts[k])
  }

  lemma AllWellFormedConcat(a: seq<Token>, b: seq<Token>)
    requires AllWellFormed(a) && AllWellFormed(b)
    ensures AllWellFormed(a + b)
  {
    forall k | 0 <= k < |a + b|
      ensures WellFormed((a + b)[k])
    {
      if k < |a| {
        assert (a + b)[k] == a[k];
      } else {
        assert (a + b)[k] == b[k - |a|];
      }
    }
  }

  /** Every token one loop turn emits is well formed. */
  lemma StepWellFormed(src: string, i: nat, line: nat, col: nat, rule: ColumnRule)
    requires i < |src|
    ensures var r := ScanStep(src, i, line, col, rule);
      r.Ok? ==> AllWellFormed(r.value.emitted)
  {
    var c := src[i];
    if c == '\n' {
      assert WellFormed(Token(NEWLINE, "\n", line, col));
    } else if c == ' ' || c == '\t' || c == '\r' || CommentStart(src, i) || c == '"' {
      LayoutWellFormed(src, i, line, col, rule);
    } else if IsDigit(c) {
      NumberWellFormed(src, i, line, col, rule);
    } else if IsIdentStart(c) {
      WordWellFormed(src, i, line, col, rule);
    } else {
      PunctDispatch(src, i, line, col, rule);
      PunctWellFormed(src, i, line, col, rule);
    }
  }

  /** Blanks and comments emit nothing, a string its STRING token. */
  lemma LayoutWellFormed(src: string, i: nat, line: nat, col: nat, rule: ColumnRule)
    requires i < |src| && src[i] != '\n'
    requires src[i] == ' ' || src[i] == '\t' || src[i] == '\r' || CommentStart(src, i) || src[i] == '"'
    ensures var r := ScanStep(src, i, line, col, rule);
      r.Ok? ==> AllWellFormed(r.value.emitted)
  {
  }

  /** A number's token is a NUMBER lexeme. */
  lemma NumberWellFormed(src: string, i: nat, line: nat, col: nat, rule: ColumnRule)
    requires i < |src| && IsDigit(src[i])
    ensures var r := ScanStep(src, i, line, col, rule);
      r.Ok? ==> AllWellFormed(r.value.emitted)
  {
    assert ScanStep(src, i, line, col, rule) == NumberStep(src, i, line, col);
    NumberEndIsMaximal(src, i);
  }

  /** A word's token has the kind of its lower-cased lexeme. */
  lemma WordWellFormed(src: string, i: nat, line: nat, col: nat, rule: ColumnRule)
    requires i < |src| && !IsDigit(src[i]) && IsIdentStart(src[i])
    ensures var r := ScanStep(src, i, line, col, rule);
      r.Ok? ==> AllWellFormed(r.value.emitted)
  {
    WordToken(src, i, line, col, rule);
    WordTypeIsKeywordOrIdent(Lower(src[i..IdentRunEnd(src, i + 1)]));
  }

  /** Every punctuation or operator token has its kind's fixed text. */
  lemma PunctWellFormed(src: string, i: nat, line: nat, col: nat, rule: ColumnRule)
    requires i < |src|
    ensures var r := PunctStep(src, i, line, col, rule);
      r.Ok? ==> forall t :: t in r.value.emitted ==> WellFormed(t)
  {
    var c := src[i];
    if IsSymbol(c) {
      SymbolText(c);
      assert WellFormed(Token(SymbolType(c), [c], line, col));
    } else if c == '/' {
      assert WellFormed(Token(SLASH, "/", line, col));
    } else if c == '=' {
      OperatorWellFormed(src, i, line, col, rule, EQ, EQEQ);
    } else if c == '>' {
      OperatorWellFormed(src, i, line, col, rule, GT, GE);
    } else if c == '<' {
      OperatorWellFormed(src, i, line, col, rule, LT, LE);
    } else if c == '!' && i + 1 < |src| && src[i + 1] == '=' {
      assert WellFormed(OpToken(NE, "!=", line, col, rule));
    }
  }

  lemma OperatorWellFormed(src: string, i: nat, line: nat, col: nat, rule: ColumnRule, one: TokenType, two: TokenType)
    requires i < |src| && FixedText(one) == [src[i]] && FixedText(two) == [src[i], '=']
    requires !IsWordType(one) && !IsWordType(two) && one != NUMBER && two != NUMBER
    ensures forall t :: t in OperatorStep(src, i, line, col, rule, one, two).emitted ==> WellFormed(t)
  {
  }

  lemma SymbolText(c: char)
    requires IsSymbol(c)
    ensures FixedText(SymbolType(c)) == [c] && !IsWordType(SymbolType(c)) && SymbolType(c) != NUMBER
  {
  }

  /** Every token a successful scan emits is well formed: in particular each
      word token's kind is WordType of its lower-cased lexeme, and each
      NUMBER lexeme is digits with an optional fraction. */
  lemma {:induction false} LexFromWellFormed(src: string, i: nat, line: nat, col: nat, rule: ColumnRule)
    requires i <= |src|
    ensures var r := LexFrom(src, i, line, col, rule);
      r.Ok? ==> AllWellFormed(r.value)
    decreases |src| - i
  {
    if i == |src| {
      assert WellFormed(Token(EOF, "", line, col));
    } else {
      var s := ScanStep(src, i, line, col, rule);
      if s.Ok? {
        var rest := LexFrom(src, s.value.next, s.value.line, s.value.col, rule);
        StepWellFormed(src, i, line, col, rule);
        LexFromWellFormed(src, s.value.next, s.value.line, s.value.col, rule);
        if rest.Ok? {
          AllWellFormedConcat(s.value.emitted, rest.value);
        }
      }
    }
  }

  /** tokenize's tokens are all well formed. */
  lemma LexWellFormed(src: string, rule: ColumnRule)
    ensures Lex(src, rule).Ok? ==> forall k :: 0 <= k < |Lex(src, rule).value| ==> WellFormed(Lex(src, rule).value[k])
  {
    LexFromWellFormed(src, 0, 1, 1, rule);
  }
}
