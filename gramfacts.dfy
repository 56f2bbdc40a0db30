/** Properties of the parser specification (module Grammar) over every token
    list. */
module GrammarFacts {
  import opened Text
  import opened Tokens
  import opened Ast
  import opened Grammar

  /** The text of the tokens from j up to e as the reading loops build it:
      each lexeme appended in turn. */
  function SpanText(toks: seq<Token>, j: nat, e: nat): string
    requires j <= e <= |toks|
    decreases e - j
  {
    if e == j then "" else Append(SpanText(toks, j, e - 1), toks[e - 1].lexeme)
  }

  /** The lexemes of a list of tokens. */
  function Lexemes(ts: seq<Token>): (ls: seq<string>)
  {
    seq(|ts|, k requires 0 <= k < |ts| => ts[k].lexeme)
  }

  /** The index of the first token at or after i that a span stops at. */
  function SpanEnd(toks: seq<Token>, i: nat, kw: Option<string>): (e: nat)
    requires Terminated(toks) && i < |toks|
    ensures i <= e < |toks| && StopsAt(toks[e], kw)
    decreases |toks| - i
  {
    if StopsAt(toks[i], kw) then i else SpanEnd(toks, i + 1, kw)
  }

  /** No token before the end of a span stops it. */
  lemma {:induction false} SpanEndIsFirst(toks: seq<Token>, i: nat, kw: Option<string>)
    requires Terminated(toks) && i < |toks|
    ensures forall k :: i <= k < SpanEnd(toks, i, kw) ==> !StopsAt(toks[k], kw)
    decreases |toks| - i
  {
    if !StopsAt(toks[i], kw) {
      SpanEndIsFirst(toks, i + 1, kw);
    }
  }

  lemma {:induction false} ReadFromText(toks: seq<Token>, j: nat, i: nat, kw: Option<string>)
    requires Terminated(toks) && j <= i < |toks|
    ensures ReadFrom(toks, i, kw, SpanText(toks, j, i)) == (SpanText(toks, j, SpanEnd(toks, i, kw)), SpanEnd(toks, i, kw))
    decreases |toks| - i
  {
    if !StopsAt(toks[i], kw) {
      ReadFromText(toks, j, i + 1, kw);
    }
  }

  /** The text a reading loop returns is the lexemes of the tokens before
      the first stopping token, each appended in turn, and the index it
      returns is that of the stopping token: no earlier token is a NEWLINE,
      EOF or the keyword. */
  lemma ReadUntilText(toks: seq<Token>, i: nat, kw: Option<string>)
    requires Terminated(toks) && i < |toks|
    ensures var e := SpanEnd(toks, i, kw);
      && ReadUntil(toks, i, kw) == (SpanText(toks, i, e), e)
      && forall k :: i <= k < e ==> !StopsAt(toks[k], kw)
  {
    ReadFromText(toks, i, i, kw);
    SpanEndIsFirst(toks, i, kw);
  }

  /** When no lexeme is empty, the text is the lexemes joined by single
      spaces. */
  lemma {:induction false} SpanTextIsJoin(toks: seq<Token>, j: nat, e: nat)
    requires j <= e <= |toks|
    requires forall k :: j <= k < e ==> toks[k].lexeme != ""
    ensures SpanText(toks, j, e) == JoinWith(Lexemes(toks[j..e]), ' ')
    decreases e - j
  {
    if e - j > 1 {
      SpanTextIsJoin(toks, j, e - 1);
      var init := Lexemes(toks[j..e - 1]);
      JoinWithSnoc(init, toks[e - 1].lexeme, ' ');
      assert init + [toks[e - 1].lexeme] == Lexemes(toks[j..e]);
    }
  }

  /** If moreover no lexeme holds a space, splitting the text at its spaces
      gives the lexemes back. */
  lemma SpanTextPieces(toks: seq<Token>, j: nat, e: nat)
    requires j < e <= |toks|
    requires forall k :: j <= k < e ==> toks[k].lexeme != "" && ' ' !in toks[k].lexeme
    ensures Pieces(SpanText(toks, j, e), ' ') == Lexemes(toks[j..e])
  {
    SpanTextIsJoin(toks, j, e);
    PiecesOfJoin(Lexemes(toks[j..e]), ' ');
  }

  lemma {:induction false} JoinWithSnoc(ps: seq<string>, last: string, sep: char)
    requires ps != []
    ensures JoinWith(ps + [last], sep) == JoinWith(ps, sep) + [sep] + last
    decreases |ps|
  {
    if |ps| == 1 {
      assert (ps + [last])[1..] == [last];
    } else {
      JoinWithSnoc(ps[1..], last, sep);
      assert (ps + [last])[1..] == ps[1..] + [last];
    }
  }

  predicate Leaf(n: Node, k: Kind) {
    n.kind == k && n.children == []
  }

  /** Rule(When, Set(Target, Value)), the Set node with empty text. */
  predicate RuleShaped(n: Node) {
    && n.kind == Rule && |n.children| == 2
    && Leaf(n.children[0], When)
    && n.children[1].kind == Set && n.children[1].text == "" && |n.children[1].children| == 2
    && Leaf(n.children[1].children[0], Target)
    && Leaf(n.children[1].children[1], Value)
  }

  /** Test(Given | Expect ...). */
  predicate TestShaped(n: Node) {
    n.kind == Test && forall c :: c in n.children ==> Leaf(c, Given) || Leaf(c, Expect)
  }

  predicate ItemShaped(n: Node) {
    RuleShaped(n) || TestShaped(n)
  }

  /** Program(Rule | Test ...), the Program node with empty text. */
  predicate ProgramShaped(n: Node) {
    n.kind == Program && n.text == "" && forall c :: c in n.children ==> ItemShaped(c)
  }

  lemma {:induction false} TestBodyShape(toks: seq<Token>, i: nat, acc: seq<Node>)
    requires Terminated(toks) && i < |toks|
    requires forall c :: c in acc ==> Leaf(c, Given) || Leaf(c, Expect)
    ensures var r := TestBody(toks, i, acc);
      r.Ok? ==> forall c :: c in r.value.items ==> Leaf(c, Given) || Leaf(c, Expect)
    decreases |toks| - i
  {
    var t := toks[i];
    if t.lexeme == "}" {
    } else if t.lexeme == "given" {
      var p := ParseGiven(toks, i);
      if p.Ok? {
        TestBodyShape(toks, p.value.next, acc + [p.value.node]);
      }
    } else if t.lexeme == "expect" {
      var p := ParseExpect(toks, i);
      if p.Ok? {
        TestBodyShape(toks, p.value.next, acc + [p.value.node]);
      }
    } else if t.ttype == NEWLINE {
      TestBodyShape(toks, i + 1, acc);
    }
  }

  lemma ParseRuleShape(toks: seq<Token>, i: nat)
    requires Terminated(toks) && i < |toks|
    ensures ParseRule(toks, i).Ok? ==> RuleShaped(ParseRule(toks, i).value.node)
  {
  }

  lemma ParseTestShape(toks: seq<Token>, i: nat)
    requires Terminated(toks) && i < |toks|
    ensures ParseTest(toks, i).Ok? ==> TestShaped(ParseTest(toks, i).value.node)
  {
    var h := TestHeader(toks, i);
    if h.Ok? {
      TestBodyShape(toks, h.value.body, []);
    }
  }

  lemma ParseItemShape(toks: seq<Token>, j: nat)
    requires Terminated(toks) && j < |toks|
    ensures ParseItem(toks, j).Ok? ==> ItemShaped(ParseItem(toks, j).value.node)
  {
    if toks[j].lexeme == "rule" {
      ParseRuleShape(toks, j);
    } else if toks[j].lexeme == "test" {
      ParseTestShape(toks, j);
    }
  }

  lemma {:induction false} ProgramItemsShape(toks: seq<Token>, i: nat, acc: seq<Node>)
    requires Terminated(toks) && i < |toks|
    requires forall c :: c in acc ==> ItemShaped(c)
    ensures var r := ProgramItems(toks, i, acc);
      r.Ok? ==> forall c :: c in r.value ==> ItemShaped(c)
    decreases |toks| - i
  {
    if toks[i].ttype != EOF {
      var j := SkipNewlines(toks, i);
      if toks[j].ttype != EOF {
        var p := ParseItem(toks, j);
        if p.Ok? {
          ParseItemShape(toks, j);
          ProgramItemsShape(toks, p.value.next, acc + [p.value.node]);
        }
      }
    }
  }

  /** A parsed program holds only Rule and Test nodes, every Rule has exactly
      the children [When, Set] and its Set exactly [Target, Value], and every
      Test holds only Given and Expect leaves. */
  lemma ParseProgramShape(toks: seq<Token>)
    requires Terminated(toks)
    ensures ParseProgram(toks).Ok? ==> ProgramShaped(ParseProgram(toks).value)
  {
    ProgramItemsShape(toks, 0, []);
  }

  /** A rule's condition is the spaced lexemes of the tokens strictly between
      'when' and the first 'then' lexeme, none of which is a NEWLINE or EOF;
      when the line ends before any 'then', the rule is rejected at the
      token that ended it. */
  lemma ConditionText(toks: seq<Token>, i: nat)
    requires Terminated(toks) && i + 3 < |toks|
    requires toks[i].lexeme == "rule" && toks[i + 1].ttype == STRING && toks[i + 2].lexeme == "when"
    ensures var th := SpanEnd(toks, i + 3, Some("then"));
      && (forall k :: i + 3 <= k < th ==> toks[k].lexeme != "then" && toks[k].ttype != NEWLINE && toks[k].ttype != EOF)
      && (toks[th].lexeme != "then" ==>
            (toks[th].ttype == NEWLINE || toks[th].ttype == EOF) && ParseRule(toks, i) == Err(ParseError(KeywordThen, toks[th])))
      && (ParseRule(toks, i).Ok? ==>
            toks[th].lexeme == "then" && ParseRule(toks, i).value.node.children[0].text == SpanText(toks, i + 3, th))
  {
    ReadUntilText(toks, i + 3, Some("then"));
  }

  /** A rule's value is the spaced lexemes after its '=' up to the line
      end, none of which is a NEWLINE or EOF; its target is the IDENT after
      'then'; one NEWLINE after the value is consumed. */
  lemma ValueText(toks: seq<Token>, i: nat)
    requires Terminated(toks) && i + 3 < |toks|
    requires toks[i].lexeme == "rule" && toks[i + 1].ttype == STRING && toks[i + 2].lexeme == "when"
    ensures var th := SpanEnd(toks, i + 3, Some("then")); var r := ParseRule(toks, i);
      r.Ok? ==>
        && th + 3 < |toks| && toks[th].lexeme == "then" && toks[th + 1].ttype == IDENT && toks[th + 2].lexeme == "="
        && var e := SpanEnd(toks, th + 3, None);
        && (forall k :: th + 3 <= k < e ==> toks[k].ttype != NEWLINE && toks[k].ttype != EOF)
        && r.value.node.children[1].children[0].text == toks[th + 1].lexeme
        && r.value.node.children[1].children[1].text == SpanText(toks, th + 3, e)
        && r.value.next == SkipNewline(toks, e)
  {
    var r := ParseRule(toks, i);
    if r.Ok? {
      assert RuleOpening(toks, i).Ok?;
      OpeningEnd(toks, i);
      var o := RuleOpening(toks, i).value;
      AssignmentText(toks, o);
      var p := RuleAssignment(toks, o).value;
      assert RuleHeader(toks, i) == Ok(p);
      assert r.value == Parsed(RuleNode(p), p.next);
    }
  }

  /** The opening of a rule ends after the first 'then' of its line. */
  lemma OpeningEnd(toks: seq<Token>, i: nat)
    requires Terminated(toks) && i + 3 < |toks|
    requires toks[i].lexeme == "rule" && toks[i + 1].ttype == STRING && toks[i + 2].lexeme == "when"
    ensures var th := SpanEnd(toks, i + 3, Some("then"));
      RuleOpening(toks, i).Ok? ==> toks[th].lexeme == "then" && RuleOpening(toks, i).value.next == th + 1
  {
    ReadUntilText(toks, i + 3, Some("then"));
  }

  /** The assignment after 'then': IDENT, '=' and the rest of the line. */
  lemma AssignmentText(toks: seq<Token>, o: RuleStart)
    requires Terminated(toks) && o.next < |toks|
    ensures var j := o.next; var r := RuleAssignment(toks, o);
      r.Ok? ==>
        && j + 2 < |toks| && toks[j].ttype == IDENT && toks[j + 1].lexeme == "="
        && var e := SpanEnd(toks, j + 2, None);
        && (forall k :: j + 2 <= k < e ==> toks[k].ttype != NEWLINE && toks[k].ttype != EOF)
        && r.value.target == toks[j]
        && r.value.value == SpanText(toks, j + 2, e)
        && r.value.next == SkipNewline(toks, e)
  {
    var j := o.next;
    if RuleAssignment(toks, o).Ok? {
      assert toks[j + 1].lexeme != "";
      ReadUntilText(toks, j + 2, None);
    }
  }

  /** stripQuotes drops exactly one pair of surrounding quotes, and leaves
      any other text as it is. */
  lemma StripQuotesMeaning(s: string, x: string)
    ensures StripQuotes("\"" + x + "\"") == x
    ensures |s| >= 2 && s[0] == '"' && s[|s| - 1] == '"' ==> "\"" + StripQuotes(s) + "\"" == s
    ensures !(|s| >= 2 && s[0] == '"' && s[|s| - 1] == '"') ==> StripQuotes(s) == s
  {
    var q := "\"" + x + "\"";
    assert q[1..|q| - 1] == x;
    if |s| >= 2 && s[0] == '"' && s[|s| - 1] == '"' {
      assert s == [s[0]] + s[1..|s| - 1] + [s[|s| - 1]];
    }
  }

  /** A rule's target is a single IDENT followed by the lexeme '=': a dotted
      target is rejected at its '.'. */
  lemma DottedTargetRejected(toks: seq<Token>, i: nat)
    requires Terminated(toks) && i + 3 < |toks|
    requires toks[i].lexeme == "rule" && toks[i + 1].ttype == STRING && toks[i + 2].lexeme == "when"
    requires var th := SpanEnd(toks, i + 3, Some("then"));
      toks[th].lexeme == "then" && toks[th + 1].ttype == IDENT && toks[th + 2].ttype == DOT && toks[th + 2].lexeme == "."
    ensures ParseRule(toks, i) == Err(ParseError(AssignSign, toks[SpanEnd(toks, i + 3, Some("then")) + 2]))
  {
    ReadUntilText(toks, i + 3, Some("then"));
  }

  /** Items are recognised by their exact lexeme: at the start of an item,
      a token whose lexeme is neither 'rule' nor 'test' (such as the keyword
      written RULE) is rejected, whatever its kind. */
  lemma ItemsByLexeme(toks: seq<Token>, i: nat, acc: seq<Node>)
    requires Terminated(toks) && i < |toks|
    requires toks[i].ttype != EOF && toks[i].ttype != NEWLINE
    requires toks[i].lexeme != "rule" && toks[i].lexeme != "test"
    ensures ParseItem(toks, i) == Err(ParseError(RuleOrTest, toks[i]))
    ensures ProgramItems(toks, i, acc) == Err(ParseError(RuleOrTest, toks[i]))
  {
  }

  /** A given or expect line's text is the spaced lexemes of the rest of the
      line, which holds no NEWLINE or EOF; one NEWLINE after it is consumed. */
  lemma LineText(toks: seq<Token>, i: nat, kind: Kind, kw: string, what: Expected)
    requires Terminated(toks) && i < |toks| && kw != ""
    ensures var r := ParseLine(toks, i, kind, kw, what);
      && (toks[i].lexeme != kw ==> r == Err(ParseError(what, toks[i])))
      && (toks[i].lexeme == kw ==>
            && i + 1 < |toks|
            && var e := SpanEnd(toks, i + 1, None);
            && r.Ok? && r.value.node == Node(kind, SpanText(toks, i + 1, e), toks[i].line, toks[i].col, [])
            && (forall k :: i + 1 <= k < e ==> toks[k].ttype != NEWLINE && toks[k].ttype != EOF)
            && r.value.next == (if toks[e].ttype == NEWLINE then e + 1 else e))
  {
    if toks[i].lexeme == kw {
      ReadUntilText(toks, i + 1, None);
    }
  }

  /** A test body that reaches a token other than '}', a given or expect
      line, or a NEWLINE, EOF among them, is rejected at that token. */
  lemma TestBodyStops(toks: seq<Token>, i: nat, acc: seq<Node>)
    requires Terminated(toks) && i < |toks|
    requires toks[i].lexeme !in {"}", "given", "expect"} && toks[i].ttype != NEWLINE
    ensures TestBody(toks, i, acc) == Err(ParseError(GivenOrExpect, toks[i]))
  {
  }

  /** A test left open to the end of the text is rejected at the final EOF
      token: blank lines up to it are skipped and EOF is not '}'. */
  lemma {:induction false} UnclosedTestRejected(toks: seq<Token>, i: nat, acc: seq<Node>)
    requires Terminated(toks) && i < |toks|
    requires forall k :: i <= k < |toks| - 1 ==> toks[k].ttype == NEWLINE && toks[k].lexeme == "\n"
    ensures TestBody(toks, i, acc) == Err(ParseError(GivenOrExpect, toks[|toks| - 1]))
    decreases |toks| - i
  {
    if i < |toks| - 1 {
      UnclosedTestRejected(toks, i + 1, acc);
    }
  }
}
