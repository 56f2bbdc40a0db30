/** The scanner as the source writes it: an object with a cursor (i, line,
    col) and an output list, advanced character by character. One class
    models both Tokenizer and BizSpecLexer; its ColumnRule says which column
    the operator tokens get. Every method is proved against module Lexer. */
module Scanning {
  import opened Text
  import opened Tokens
  import opened Lexer

  class Scanner {
    const src: string
    const rule: ColumnRule
    var i: nat
    var line: nat
    var col: nat
    var out: seq<Token>

    ghost predicate Valid()
      reads this
    {
      i <= |src|
    }

    /** After a step from (i0, line0, col0, out0): on success the state is the
        step's, with its tokens appended; on failure the step's error. */
    ghost predicate Did(s: Result<Step>, r: Outcome, out0: seq<Token>)
      reads this
    {
      match s
      case Err(e) => r == Fail(e)
      case Ok(st) => r == Pass && out == out0 + st.emitted && i == st.next && line == st.line && col == st.col
    }

    /** new Tokenizer(source) / new BizSpecLexer(source): a null source is read
        as the empty text. */
    constructor (source: Option<string>, rule: ColumnRule)
      ensures src == SourceText(source) && this.rule == rule
      ensures i == 0 && line == 1 && col == 1 && out == []
    {
      src := SourceText(source);
      this.rule := rule;
      i, line, col, out := 0, 1, 1, [];
    }

    /** peek2: the next character, or '\0' past the end. */
    function Peek2(): (c: char)
      reads this
      ensures i + 1 < |src| ==> c == src[i + 1]
    {
      if i + 1 < |src| then src[i + 1] else '\0'
    }

    method Advance()
      requires i < |src|
      modifies this`i, this`col
      ensures i == old(i) + 1 && col == old(col) + 1
    {
      i, col := i + 1, col + 1;
    }

    method AdvanceLine()
      requires i < |src|
      modifies this`i, this`line, this`col
      ensures i == old(i) + 1 && line == old(line) + 1 && col == 1
    {
      i, line, col := i + 1, line + 1, 1;
    }

    /** add(t, lexeme): a token at the current line and column. */
    method Add(t: TokenType, lexeme: string)
      modifies this`out
      ensures out == old(out) + [Token(t, lexeme, line, col)]
    {
      out := out + [Token(t, lexeme, line, col)];
    }

    /** add(t, lexeme, startCol): a token at the current line and a given column. */
    method AddAt(t: TokenType, lexeme: string, startCol: nat)
      modifies this`out
      ensures out == old(out) + [Token(t, lexeme, line, startCol)]
    {
      out := out + [Token(t, lexeme, line, startCol)];
    }

    method AddAndAdvance(t: TokenType, lexeme: string)
      requires i < |src|
      modifies this`out, this`i, this`col
      ensures out == old(out) + [Token(t, lexeme, line, old(col))]
      ensures i == old(i) + 1 && col == old(col) + 1
    {
      Add(t, lexeme);
      Advance();
    }

    /** The add of an operator token once the operator is consumed: Tokenizer
        calls add(t, lexeme) and records the current column, BizSpecLexer calls
        add(t, lexeme, startCol). */
    method AddOperator(t: TokenType, lexeme: string, startCol: nat)
      modifies this`out
      ensures out == old(out) + [Token(t, lexeme, line, if rule == AfterOperator then col else startCol)]
    {
      if rule == AfterOperator {
        Add(t, lexeme);
      } else {
        AddAt(t, lexeme, startCol);
      }
    }

    /** skipComment / skipLine: up to, not past, the next newline. */
    method SkipComment()
      requires Valid()
      modifies this`i, this`col
      ensures i == LineEnd(src, old(i)) && col == old(col) + (i - old(i))
    {
      while i < |src| && src[i] != '\n'
        invariant old(i) <= i <= |src| && col == old(col) + (i - old(i))
        invariant LineEnd(src, i) == LineEnd(src, old(i))
        decreases |src| - i
      {
        Advance();
      }
    }

    /** lexString: the opening quote is at i. */
    method LexString() returns (r: Outcome)
      requires Valid() && i < |src| && src[i] == '"'
      modifies this
      ensures Valid() && Did(StringStep(src, old(i), old(line), old(col)), r, old(out))
    {
      var startCol := col;
      Advance();
      var s := ReadStringBody();
      match s
      case Closed(content, _) =>
        AddAt(STRING, content, startCol);
        return Pass;
      case Unclosed =>
        return Fail(LexError(line, startCol, UnterminatedString));
      case DanglingEscape =>
        return Fail(LexError(line, col, EscapeAtEnd));
    }

    /** The loop of lexString after the opening quote: the characters up to
        the closing quote, with escapes decoded; it stops at a newline or the
        end of the text, and at a backslash that ends the text. */
    method ReadStringBody() returns (s: StringScan)
      requires Valid()
      modifies this`i, this`col
      ensures s == StringBody(src, old(i))
      ensures Valid() && col == old(col) + (i - old(i))
      ensures s.Closed? ==> i == s.next
      ensures s.DanglingEscape? ==> i == |src|
    {
      var sb := "";
      while i < |src|
        invariant old(i) <= i <= |src| && col == old(col) + (i - old(i))
        invariant StringBody(src, old(i)) == Prepend(sb, StringBody(src, i))
        decreases |src| - i
      {
        var c := src[i];
        if c == '"' {
          Advance();
          assert sb + "" == sb;
          return Closed(sb, i);
        }
        if c == '\n' {
          return Unclosed;
        }
        if c == '\\' {
          Advance();
          if i >= |src| {
            return DanglingEscape;
          }
          var e := src[i];
          PrependTwice(sb, [Unescape(e)], StringBody(src, i + 1));
          sb := sb + [Unescape(e)];
          Advance();
        } else {
          PrependTwice(sb, [c], StringBody(src, i + 1));
          sb := sb + [c];
          Advance();
        }
      }
      return Unclosed;
    }

    /** The digit loop of lexNumber: appends the maximal run of digits at i. */
    method TakeDigits(sb0: string) returns (sb: string)
      requires Valid()
      modifies this`i, this`col
      ensures Valid() && i == DigitRunEnd(src, old(i)) && col == old(col) + (i - old(i))
      ensures sb == sb0 + src[old(i)..i]
    {
      sb := sb0;
      while i < |src| && IsDigit(src[i])
        invariant old(i) <= i <= |src| && col == old(col) + (i - old(i)) && sb == sb0 + src[old(i)..i]
        invariant DigitRunEnd(src, i) == DigitRunEnd(src, old(i))
        decreases |src| - i
      {
        sb := sb + [src[i]];
        Advance();
      }
    }

    /** lexNumber: the first digit is at i. */
    method LexNumber()
      requires Valid() && i < |src| && IsDigit(src[i])
      modifies this`i, this`col, this`out
      ensures Valid() && Did(NumberStep(src, old(i), old(line), old(col)), Pass, old(out))
    {
      var startCol := col;
      var sb := TakeNumber();
      AddAt(NUMBER, sb, startCol);
    }

    /** The characters of lexNumber: the digits, and the fraction only when a
        digit follows the '.'. */
    method TakeNumber() returns (sb: string)
      requires Valid() && i < |src| && IsDigit(src[i])
      modifies this`i, this`col
      ensures Valid() && i == NumberEnd(src, old(i)) && col == old(col) + (i - old(i))
      ensures sb == src[old(i)..i]
    {
      var start := i;
      sb := TakeDigits("");
      assert sb == src[start..i];
      if i + 1 < |src| && src[i] == '.' && IsDigit(src[i + 1]) {
        sb := TakeFraction(sb, start);
      }
    }

    /** The '.' at i and the digits after it, appended to the text read from
        start. */
    method TakeFraction(sb0: string, start: nat) returns (sb: string)
      requires start <= i && i + 1 < |src| && src[i] == '.' && IsDigit(src[i + 1]) && sb0 == src[start..i]
      modifies this`i, this`col
      ensures Valid() && i == DigitRunEnd(src, old(i) + 1) && col == old(col) + (i - old(i))
      ensures sb == src[start..i]
    {
      ghost var d := i;
      sb := sb0 + ['.'];
      Advance();
      sb := TakeDigits(sb);
      assert sb == src[start..d] + src[d..d + 1] + src[d + 1..i];
      assert src[start..d] + src[d..d + 1] + src[d + 1..i] == src[start..i];
    }

    /** lexIdentOrKeyword: the first character is at i. */
    method LexIdentOrKeyword()
      requires Valid() && i < |src| && IsIdentStart(src[i])
      modifies this`i, this`col, this`out
      ensures Valid() && Did(WordStep(src, old(i), old(line), old(col)), Pass, old(out))
    {
      var startCol := col;
      var sb := [src[i]];
      Advance();
      while i < |src| && IsIdentPart(src[i])
        invariant old(i) < i <= |src| && col == old(col) + (i - old(i)) && sb == src[old(i)..i] && out == old(out)
        invariant IdentRunEnd(src, i) == IdentRunEnd(src, old(i) + 1)
        decreases |src| - i
      {
        sb := sb + [src[i]];
        Advance();
      }
      AddAt(WordType(Lower(sb)), sb, startCol);
    }

    /** The cases '=', '>' and '<' of tokenize: the two-character operator
        when '=' follows, otherwise the one-character one. */
    method ScanOperator(one: TokenType, two: TokenType)
      requires Valid() && i < |src|
      modifies this`i, this`col, this`out
      ensures Valid() && Did(Ok(OperatorStep(src, old(i), old(line), old(col), rule, one, two)), Pass, old(out))
    {
      var c := src[i];
      var startCol := col;
      if Peek2() == '=' {
        Advance(); Advance();
        AddOperator(two, [c, '='], startCol);
      } else {
        Advance();
        AddOperator(one, [c], startCol);
      }
    }

    /** The switch of tokenize over the punctuation and operator characters,
        and its default error; a '/' followed by '/' starts a comment. */
    method ScanPunct() returns (r: Outcome)
      requires Valid() && i < |src| && src[i] != '#'
      modifies this`i, this`col, this`out
      ensures Valid()
      ensures CommentStart(src, old(i)) ==> Did(CommentStep(src, old(i), old(line), old(col)), r, old(out))
      ensures !CommentStart(src, old(i)) ==> Did(PunctStep(src, old(i), old(line), old(col), rule), r, old(out))
    {
      var c := src[i];
      r := Pass;
      if IsSymbol(c) {
        AddAndAdvance(SymbolType(c), [c]);
      } else if c == '/' {
        if Peek2() == '/' {
          SkipComment();
        } else {
          AddAndAdvance(SLASH, "/");
        }
      } else if c == '=' {
        ScanOperator(EQ, EQEQ);
      } else if c == '>' {
        ScanOperator(GT, GE);
      } else if c == '<' {
        ScanOperator(LT, LE);
      } else if c == '!' {
        if Peek2() == '=' {
          var startCol := col;
          Advance(); Advance();
          AddOperator(NE, "!=", startCol);
        } else {
          r := Fail(LexError(line, col, BangWithoutEquals));
        }
      } else {
        r := Fail(LexError(line, col, UnrecognizedChar(c)));
      }
    }

    /** One iteration of the loop of tokenize. */
    method ScanOne() returns (r: Outcome)
      requires Valid() && i < |src|
      modifies this
      ensures Valid() && Did(ScanStep(src, old(i), old(line), old(col), rule), r, old(out))
    {
      var c := src[i];
      if c == ' ' || c == '\t' || c == '\r' {
        Advance();
        r := Pass;
      } else if c == '\n' {
        Add(NEWLINE, "\n");
        AdvanceLine();
        r := Pass;
      } else if c == '#' {
        SkipComment();
        r := Pass;
      } else if c == '"' {
        r := LexString();
      } else if IsDigit(c) {
        LexNumber();
        r := Pass;
      } else if IsIdentStart(c) {
        LexIdentOrKeyword();
        r := Pass;
      } else {
        r := ScanPunct();
      }
    }

    /** tokenize: scans the rest of the text and appends the final EOF token;
        the result is the output list, whose new part is exactly what the
        specification scans from the cursor on. */
    method Tokenize() returns (r: Result<seq<Token>>)
      requires Valid()
      modifies this
      ensures r == PrependTokens(old(out), LexFrom(src, old(i), old(line), old(col), rule))
      ensures r.Ok? ==> r.value == out
    {
      while i < |src|
        invariant Valid()
        invariant PrependTokens(out, LexFrom(src, i, line, col, rule))
               == PrependTokens(old(out), LexFrom(src, old(i), old(line), old(col), rule))
        decreases |src| - i
      {
        ghost var out0 := out;
        ghost var s := ScanStep(src, i, line, col, rule);
        var step := ScanOne();
        if step.Fail? {
          return Err(step.error);
        }
        PrependTokensTwice(out0, s.value.emitted, LexFrom(src, i, line, col, rule));
      }
      out := out + [Token(EOF, "", line, col)];
      r := Ok(out);
    }
  }

  lemma PrependTwice(a: string, b: string, r: StringScan)
    ensures Prepend(a, Prepend(b, r)) == Prepend(a + b, r)
  {
    match r
    case Closed(c, k) => assert a + (b + c) == (a + b) + c;
    case _ =>
  }

  lemma PrependTokensTwice(a: seq<Token>, b: seq<Token>, r: Result<seq<Token>>)
    ensures PrependTokens(a, PrependTokens(b, r)) == PrependTokens(a + b, r)
  {
    match r
    case Ok(c) => assert a + (b + c) == (a + b) + c;
    case Err(_) =>
  }

  /** The scanner run on a fresh object computes the specification. */
  method TokenizeSource(source: Option<string>, rule: ColumnRule) returns (r: Result<seq<Token>>)
    ensures r == Lex(SourceText(source), rule)
    ensures source.None? ==> r == Ok([Token(EOF, "", 1, 1)])
  {
    var sc := new Scanner(source, rule);
    r := sc.Tokenize();
    assert PrependTokens([], Lex(sc.src, rule)) == Lex(sc.src, rule) by {
      match Lex(sc.src, rule)
      case Ok(ts) => assert [] + ts == ts;
      case Err(_) =>
    }
  }
}
