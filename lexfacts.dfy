/** Properties of the scanner specification (module Lexer) over every input. */
module LexerFacts {
  import opened Text
  import opened Tokens
  import opened Lexer

  /** The number of NEWLINE tokens in a token list. */
  function NewlinesIn(ts: seq<Token>): nat
  {
    if ts == [] then 0 else NewlinesIn(ts[..|ts| - 1]) + (if ts[|ts| - 1].ttype == NEWLINE then 1 else 0)
  }

  lemma {:induction false} NewlinesInConcat(a: seq<Token>, b: seq<Token>)
    ensures NewlinesIn(a + b) == NewlinesIn(a) + NewlinesIn(b)
    decreases |b|
  {
    if b != [] {
      assert (a + b)[..|a + b| - 1] == a + b[..|b| - 1];
      NewlinesInConcat(a, b[..|b| - 1]);
    } else {
      assert a + b == a;
    }
  }

  /** A successful scan ends with exactly one EOF token, whose lexeme is empty
      and which sits at the line and column where scanning stopped. */
  lemma {:induction false} LexFromEndsWithEof(src: string, i: nat, line: nat, col: nat, rule: ColumnRule)
    requires i <= |src|
    ensures var r := LexFrom(src, i, line, col, rule);
      r.Ok? ==>
        && |r.value| > 0
        && r.value[|r.value| - 1].ttype == EOF
        && r.value[|r.value| - 1].lexeme == ""
        && forall k :: 0 <= k < |r.value| - 1 ==> r.value[k].ttype != EOF
    decreases |src| - i
  {
    if i < |src| {
      var s := ScanStep(src, i, line, col, rule);
      if s.Ok? {
        LexFromEndsWithEof(src, s.value.next, s.value.line, s.value.col, rule);
        var r := LexFrom(src, s.value.next, s.value.line, s.value.col, rule);
        if r.Ok? {
          var ts := s.value.emitted + r.value;
          assert forall k :: 0 <= k < |s.value.emitted| ==> ts[k] in s.value.emitted;
        }
      }
    }
  }

  lemma LexEndsWithEof(src: string, rule: ColumnRule)
    ensures var r := Lex(src, rule);
      r.Ok? ==>
        && |r.value| > 0
        && r.value[|r.value| - 1] == Token(EOF, "", r.value[|r.value| - 1].line, r.value[|r.value| - 1].col)
        && forall k :: 0 <= k < |r.value| - 1 ==> r.value[k].ttype != EOF
  {
    LexFromEndsWithEof(src, 0, 1, 1, rule);
  }

  /** Every token's line is the starting line plus the number of NEWLINE
      tokens before it: only a scanned newline moves to the next line. */
  lemma {:induction false} LexFromLines(src: string, i: nat, line: nat, col: nat, rule: ColumnRule)
    requires i <= |src|
    ensures var r := LexFrom(src, i, line, col, rule);
      r.Ok? ==> forall k :: 0 <= k < |r.value| ==> r.value[k].line == line + NewlinesIn(r.value[..k])
    decreases |src| - i
  {
    if i < |src| {
      var s := ScanStep(src, i, line, col, rule);
      if s.Ok? {
        var st := s.value;
        LexFromLines(src, st.next, st.line, st.col, rule);
        var r := LexFrom(src, st.next, st.line, st.col, rule);
        if r.Ok? {
          StepNewlines(src, i, line, col, rule);
          LinesConcat(st.emitted, r.value, line, st.line);
        }
      }
    }
  }

  /** A step's NEWLINE tokens are the lines it moves on by. */
  lemma StepNewlines(src: string, i: nat, line: nat, col: nat, rule: ColumnRule)
    requires i < |src|
    ensures var s := ScanStep(src, i, line, col, rule);
      s.Ok? ==> s.value.line == line + NewlinesIn(s.value.emitted)
  {
    var s := ScanStep(src, i, line, col, rule);
    if s.Ok? && s.value.emitted != [] {
      assert s.value.emitted[..0] == [];
      assert s.value.emitted[0] in s.value.emitted;
    }
  }

  /** The line rule carries over a prefix of at most one token on the first
      line followed by tokens that keep it from line mid. */
  lemma LinesConcat(a: seq<Token>, b: seq<Token>, line: nat, mid: nat)
    requires |a| <= 1 && mid == line + NewlinesIn(a)
    requires forall t :: t in a ==> t.line == line
    requires forall k :: 0 <= k < |b| ==> b[k].line == mid + NewlinesIn(b[..k])
    ensures forall k :: 0 <= k < |a + b| ==> (a + b)[k].line == line + NewlinesIn((a + b)[..k])
  {
    var ts := a + b;
    forall k | 0 <= k < |ts|
      ensures ts[k].line == line + NewlinesIn(ts[..k])
    {
      if k < |a| {
        assert k == 0 && ts[..k] == [];
        assert ts[k] in a;
      } else {
        var m := k - |a|;
        assert ts[k] == b[m];
        assert ts[..k] == a + b[..m];
        NewlinesInConcat(a, b[..m]);
      }
    }
  }

  lemma LexLines(src: string, rule: ColumnRule)
    ensures var r := Lex(src, rule);
      r.Ok? ==> forall k :: 0 <= k < |r.value| ==> r.value[k].line == 1 + NewlinesIn(r.value[..k])
  {
    LexFromLines(src, 0, 1, 1, rule);
  }

  /** t (from Tokenizer) and u (from BizSpecLexer) are the same token except
      that an operator's column is past its end in t and at its start in u. */
  predicate ColumnVariant(t: Token, u: Token) {
    && t.ttype == u.ttype && t.lexeme == u.lexeme && t.line == u.line
    && t.col == (if IsOperator(t.ttype) then u.col + |u.lexeme| else u.col)
  }

  /** Token lists that agree token by token as the two scanners' do. */
  predicate TokensAgree(a: seq<Token>, b: seq<Token>) {
    |a| == |b| && forall k :: 0 <= k < |a| ==> ColumnVariant(a[k], b[k])
  }

  /** Results that agree: both fail with the same error or both succeed with
      agreeing tokens. */
  predicate ResultsAgree(a: Result<seq<Token>>, b: Result<seq<Token>>) {
    && a.Ok? == b.Ok?
    && (a.Err? ==> a.error == b.error)
    && (a.Ok? ==> TokensAgree(a.value, b.value))
  }

  lemma TokensAgreeConcat(a1: seq<Token>, b1: seq<Token>, a2: seq<Token>, b2: seq<Token>)
    requires TokensAgree(a1, b1) && TokensAgree(a2, b2)
    ensures TokensAgree(a1 + a2, b1 + b2)
  {
    forall k | 0 <= k < |a1 + a2| ensures ColumnVariant((a1 + a2)[k], (b1 + b2)[k]) {
      if k >= |a1| {
        assert (a1 + a2)[k] == a2[k - |a1|] && (b1 + b2)[k] == b2[k - |a1|];
      }
    }
  }

  /** The two scanners succeed and fail on the same inputs, with the same
      error, and their tokens differ only in the operator columns. */
  lemma {:induction false} LexFromVariants(src: string, i: nat, line: nat, col: nat)
    requires i <= |src|
    ensures ResultsAgree(LexFrom(src, i, line, col, AfterOperator), LexFrom(src, i, line, col, AtOperatorStart))
    decreases |src| - i
  {
    if i < |src| {
      var sa := ScanStep(src, i, line, col, AfterOperator);
      var sb := ScanStep(src, i, line, col, AtOperatorStart);
      StepVariants(src, i, line, col);
      if sa.Ok? {
        var st := sa.value;
        LexFromVariants(src, st.next, st.line, st.col);
        var ra := LexFrom(src, st.next, st.line, st.col, AfterOperator);
        var rb := LexFrom(src, st.next, st.line, st.col, AtOperatorStart);
        assert LexFrom(src, i, line, col, AfterOperator) == PrependTokens(st.emitted, ra);
        assert LexFrom(src, i, line, col, AtOperatorStart) == PrependTokens(sb.value.emitted, rb);
        if ra.Ok? {
          TokensAgreeConcat(st.emitted, sb.value.emitted, ra.value, rb.value);
        }
      }
    }
  }

  lemma StepVariants(src: string, i: nat, line: nat, col: nat)
    requires i < |src|
    ensures StepsAgree(ScanStep(src, i, line, col, AfterOperator), ScanStep(src, i, line, col, AtOperatorStart))
  {
    var c := src[i];
    if c == ' ' || c == '\t' || c == '\r' || c == '\n' || CommentStart(src, i) || c == '"' || IsDigit(c) || IsIdentStart(c) {
      var r := ScanStep(src, i, line, col, AfterOperator);
      assert r == ScanStep(src, i, line, col, AtOperatorStart);
      NoOperatorOutsidePunct(src, i, line, col);
      SelfAgrees(r);
    } else {
      PunctVariants(src, i, line, col);
    }
  }

  /** Only the punctuation step emits operators. */
  lemma NoOperatorOutsidePunct(src: string, i: nat, line: nat, col: nat)
    requires i < |src|
    requires var c := src[i];
      c == ' ' || c == '\t' || c == '\r' || c == '\n' || CommentStart(src, i) || c == '"' || IsDigit(c) || IsIdentStart(c)
    ensures var r := ScanStep(src, i, line, col, AfterOperator);
      r.Ok? && |r.value.emitted| == 1 ==> !IsOperator(r.value.emitted[0].ttype)
  {
    var c := src[i];
    var r := ScanStep(src, i, line, col, AfterOperator);
    if c == ' ' || c == '\t' || c == '\r' || c == '\n' || CommentStart(src, i) {
    } else if c == '"' {
      assert r == StringStep(src, i, line, col);
    } else if IsDigit(c) {
      assert r == NumberStep(src, i, line, col);
    } else {
      assert r == WordStep(src, i, line, col);
    }
  }

  /** A step that emits no operator agrees with itself. */
  lemma SelfAgrees(r: Result<Step>)
    requires r.Ok? ==> |r.value.emitted| <= 1
    requires r.Ok? && |r.value.emitted| == 1 ==> !IsOperator(r.value.emitted[0].ttype)
    ensures StepsAgree(r, r)
  {
  }

  /** Two step results that agree as the two scanners' steps do. */
  predicate StepsAgree(a: Result<Step>, b: Result<Step>) {
    && a.Ok? == b.Ok?
    && (a.Err? ==> a.error == b.error)
    && (a.Ok? ==>
          && a.value.next == b.value.next && a.value.line == b.value.line && a.value.col == b.value.col
          && |a.value.emitted| == |b.value.emitted|
          && forall k :: 0 <= k < |a.value.emitted| ==> ColumnVariant(a.value.emitted[k], b.value.emitted[k]))
  }

  lemma OperatorVariants(src: string, i: nat, line: nat, col: nat, one: TokenType, two: TokenType)
    requires i < |src| && IsOperator(one) && IsOperator(two)
    ensures StepsAgree(Ok(OperatorStep(src, i, line, col, AfterOperator, one, two)),
                       Ok(OperatorStep(src, i, line, col, AtOperatorStart, one, two)))
  {
  }

  lemma PunctVariants(src: string, i: nat, line: nat, col: nat)
    requires i < |src|
    ensures StepsAgree(PunctStep(src, i, line, col, AfterOperator), PunctStep(src, i, line, col, AtOperatorStart))
  {
    var c := src[i];
    if IsSymbol(c) {
      assert !IsOperator(SymbolType(c));
    } else if c == '/' {
    } else if c == '=' {
      OperatorVariants(src, i, line, col, EQ, EQEQ);
    } else if c == '>' {
      OperatorVariants(src, i, line, col, GT, GE);
    } else if c == '<' {
      OperatorVariants(src, i, line, col, LT, LE);
    }
  }

  lemma LexVariants(src: string)
    ensures ResultsAgree(Lex(src, AfterOperator), Lex(src, AtOperatorStart))
  {
    LexFromVariants(src, 0, 1, 1);
  }
}
