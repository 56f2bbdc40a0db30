/** The structural parser as the source writes it: an object with a cursor
    into the token list that builds BizNode objects, proved to compute the
    trees of module Grammar. */
module Parsing {
  import opened Text
  import opened Tokens
  import opened Ast
  import opened Grammar

  class Parser {
    const toks: TokenList
    var i: nat

    ghost predicate Valid()
      reads this
    {
      i < |toks|
    }

    /** What a parse method returned, in the terms of the specification:
        the same error, or the tree of the node built with the cursor after
        it. */
    ghost function Got(r: Result<BizNode>): Result<Parsed>
      reads this, if r.Ok? then {r.value} else {}
    {
      match r
      case Ok(n) => Ok(Parsed(n.tree, i))
      case Err(e) => Err(e)
    }

    /** new Parser(tokens). */
    constructor (tokens: seq<Token>)
      requires Terminated(tokens)
      ensures toks == tokens && i == 0 && Valid()
    {
      toks := tokens;
      i := 0;
    }

    /** t(): the current token. */
    function T(): Token
      reads this
      requires Valid()
    {
      toks[i]
    }

    /** consume(tp, msg): the current token if it has kind tp, which is then
        passed; otherwise an error at it, the cursor unchanged. */
    method Consume(tp: TokenType, what: Expected) returns (r: Result<Token>)
      requires Valid()
      modifies this`i
      ensures toks[old(i)].ttype == tp ==> r == Ok(toks[old(i)]) && i == old(i) + 1
      ensures toks[old(i)].ttype != tp ==> r == Err(ParseError(what, toks[old(i)])) && i == old(i)
      ensures tp != EOF ==> Valid()
    {
      if toks[i].ttype != tp {
        return Err(ParseError(what, toks[i]));
      }
      r := Ok(toks[i]);
      i := i + 1;
    }

    /** consumeLex(lx, msg): the same, matching the lexeme. */
    method ConsumeLex(lx: string, what: Expected) returns (r: Result<Token>)
      requires Valid() && lx != ""
      modifies this`i
      ensures Valid()
      ensures toks[old(i)].lexeme == lx ==> r == Ok(toks[old(i)]) && i == old(i) + 1
      ensures toks[old(i)].lexeme != lx ==> r == Err(ParseError(what, toks[old(i)])) && i == old(i)
    {
      if toks[i].lexeme != lx {
        return Err(ParseError(what, toks[i]));
      }
      r := Ok(toks[i]);
      i := i + 1;
    }

    /** consumeIf(tp): passes the current token when it has kind tp. */
    method ConsumeIf(tp: TokenType) returns (b: bool)
      requires Valid() && tp != EOF
      modifies this`i
      ensures Valid()
      ensures b == (toks[old(i)].ttype == tp) && i == if b then old(i) + 1 else old(i)
    {
      b := toks[i].ttype == tp;
      if b {
        i := i + 1;
      }
    }

    /** consumeIfLex(lx): passes the current token when its lexeme is lx. */
    method ConsumeIfLex(lx: string) returns (b: bool)
      requires Valid() && lx != ""
      modifies this`i
      ensures Valid()
      ensures b == (toks[old(i)].lexeme == lx) && i == if b then old(i) + 1 else old(i)
    {
      b := toks[i].lexeme == lx;
      if b {
        i := i + 1;
      }
    }

    /** while (consumeIf(NEWLINE)); */
    method SkipNewlines()
      requires Valid()
      modifies this`i
      ensures Valid() && i == Grammar.SkipNewlines(toks, old(i))
    {
      while toks[i].ttype == NEWLINE
        invariant Valid() && old(i) <= i
        invariant Grammar.SkipNewlines(toks, i) == Grammar.SkipNewlines(toks, old(i))
        decreases |toks| - i
      {
        i := i + 1;
      }
    }

    /** readUntilKeyword(kw) when kw is given, readUntilLineEnd otherwise. */
    method ReadUntil(kw: Option<string>) returns (text: string)
      requires Valid()
      modifies this`i
      ensures Valid() && (text, i) == Grammar.ReadUntil(toks, old(i), kw)
    {
      var sb := "";
      while !StopsAt(toks[i], kw)
        invariant Valid() && old(i) <= i
        invariant ReadFrom(toks, i, kw, sb) == Grammar.ReadUntil(toks, old(i), kw)
        decreases |toks| - i
      {
        sb := Append(sb, toks[i].lexeme);
        i := i + 1;
      }
      text := sb;
    }

    /** parseGiven (kw "given") and parseExpect (kw "expect"). */
    method ParseLine(kind: Kind, kw: string, what: Expected) returns (r: Result<BizNode>)
      requires Valid() && kw != ""
      modifies this`i
      ensures Valid()
      ensures Got(r) == Grammar.ParseLine(toks, old(i), kind, kw, what)
      ensures r.Ok? ==> r.value.Valid() && fresh(r.value.Repr)
    {
      var start :- ConsumeLex(kw, what);
      assert Grammar.ParseLine(toks, old(i), kind, kw, what) == Ok(Grammar.LineRest(toks, kind, start, i));
      r := LineRest(kind, start);
    }

    /** readUntilLineEnd, consumeIf(NEWLINE) and the node of a given or expect
        line whose keyword token is start. */
    method LineRest(kind: Kind, start: Token) returns (r: Result<BizNode>)
      requires Valid()
      modifies this`i
      ensures Valid()
      ensures Got(r) == Ok(Grammar.LineRest(toks, kind, start, old(i)))
      ensures r.Ok? && r.value.Valid() && fresh(r.value.Repr)
    {
      var text := ReadUntil(None);
      var _ := ConsumeIf(NEWLINE);
      assert Grammar.LineRest(toks, kind, start, old(i)) == Parsed(Node(kind, text, start.line, start.col, []), i);
      var n := new BizNode(kind, text, start.line, start.col);
      return Ok(n);
    }

    /** The first part of parseRule: rule STRING when <condition> then. */
    method RuleOpening() returns (r: Result<RuleStart>)
      requires Valid()
      modifies this`i
      ensures Valid() && r == Grammar.RuleOpening(toks, old(i))
      ensures r.Ok? ==> i == r.value.next
    {
      var start :- ConsumeLex("rule", KeywordRule);
      var name :- Consume(STRING, RuleName);
      var _ :- ConsumeLex("when", KeywordWhen);
      r := RuleCondition(start, name);
    }

    /** readUntilKeyword("then") and consume("then"). */
    method RuleCondition(start: Token, name: Token) returns (r: Result<RuleStart>)
      requires Valid()
      modifies this`i
      ensures Valid() && r == Grammar.RuleCondition(toks, start, name, old(i))
      ensures r.Ok? ==> i == r.value.next
    {
      var cond := ReadUntil(Some("then"));
      var _ :- ConsumeLex("then", KeywordThen);
      return Ok(RuleStart(start, name, cond, i));
    }

    /** The reading half of parseRule (its consume and readUntil calls). */
    method RuleHeader() returns (r: Result<RuleParts>)
      requires Valid()
      modifies this`i
      ensures Valid() && r == Grammar.RuleHeader(toks, old(i))
      ensures r.Ok? ==> i == r.value.next
    {
      var o :- RuleOpening();
      r := RuleAssignment(o);
    }

    /** consume(IDENT), consume("="), readUntilLineEnd and consumeIf(NEWLINE). */
    method RuleAssignment(o: RuleStart) returns (r: Result<RuleParts>)
      requires Valid() && i == o.next
      modifies this`i
      ensures Valid() && r == Grammar.RuleAssignment(toks, o)
      ensures r.Ok? ==> i == r.value.next
    {
      var target :- Consume(IDENT, TargetName);
      var _ :- ConsumeLex("=", AssignSign);
      var p := RuleValue(o, target);
      return Ok(p);
    }

    /** readUntilLineEnd and consumeIf(NEWLINE) after the '='. */
    method RuleValue(o: RuleStart, target: Token) returns (p: RuleParts)
      requires Valid()
      modifies this`i
      ensures Valid() && p == Grammar.RuleValue(toks, o, target, old(i)) && i == p.next
    {
      var value := ReadUntil(None);
      var _ := ConsumeIf(NEWLINE);
      p := RuleParts(o.start, o.name, o.cond, target, value, i);
    }

    /** parseRule. */
    method ParseRule() returns (r: Result<BizNode>)
      requires Valid()
      modifies this`i
      ensures Valid()
      ensures Got(r) == Grammar.ParseRule(toks, old(i))
      ensures r.Ok? ==> r.value.Valid() && fresh(r.value.Repr)
    {
      var p :- RuleHeader();
      var rule := BuildRule(p);
      return Ok(rule);
    }

    /** The opening of parseTest: test STRING { and any blank lines. */
    method TestHeader() returns (r: Result<Opening>)
      requires Valid()
      modifies this`i
      ensures Valid() && r == Grammar.TestHeader(toks, old(i))
      ensures r.Ok? ==> i == r.value.body
    {
      var start :- ConsumeLex("test", KeywordTest);
      var name :- Consume(STRING, TestName);
      var _ :- ConsumeLex("{", OpenBrace);
      SkipNewlines();
      return Ok(Opening(start, name, i));
    }

    /** The body loop of parseTest: given and expect lines are added to test,
        blank NEWLINEs skipped, up to the '}' lexeme. */
    method TestBody(test: BizNode) returns (r: Result<()>)
      requires Valid() && test.Valid() && test.children == []
      modifies this`i, test`children, test`tree, test`Repr
      ensures Valid() && test.Valid() && fresh(test.Repr - old(test.Repr))
      ensures var s := Grammar.TestBody(toks, old(i), []);
        && (s.Err? <==> r.Err?)
        && (s.Err? ==> r.error == s.error)
        && (s.Ok? ==> test.tree == Node(test.kind, test.text, test.line, test.col, s.value.items) && i == s.value.close)
    {
      ghost var body := i;
      ghost var acc: seq<Node> := [];
      while toks[i].lexeme != "}"
        invariant Valid() && test.Valid() && fresh(test.Repr - old(test.Repr))
        invariant test.tree == Node(test.kind, test.text, test.line, test.col, acc)
        invariant Grammar.TestBody(toks, i, acc) == Grammar.TestBody(toks, body, [])
        decreases |toks| - i
      {
        ghost var i0 := i;
        if toks[i].lexeme == "given" {
          ghost var n := AddLine(test, Given, "given", KeywordGiven);
          assert Grammar.TestBody(toks, i0, acc) == Grammar.TestBody(toks, i, acc + [n]);
          acc := acc + [n];
        } else if toks[i].lexeme == "expect" {
          ghost var n := AddLine(test, Expect, "expect", KeywordExpect);
          assert Grammar.TestBody(toks, i0, acc) == Grammar.TestBody(toks, i, acc + [n]);
          acc := acc + [n];
        } else {
          var nl := ConsumeIf(NEWLINE);
          if !nl {
            return Err(ParseError(GivenOrExpect, toks[i]));
          }
        }
      }
      return Ok(());
    }

    /** One given or expect line of a test body, parsed and added to test;
        n is the line's tree. */
    method AddLine(test: BizNode, kind: Kind, kw: string, what: Expected) returns (ghost n: Node)
      requires Valid() && test.Valid() && kw != "" && toks[i].lexeme == kw
      modifies this`i, test`children, test`tree, test`Repr
      ensures Valid() && test.Valid() && fresh(test.Repr - old(test.Repr))
      ensures Grammar.ParseLine(toks, old(i), kind, kw, what) == Ok(Parsed(n, i))
      ensures test.tree == Node(test.kind, test.text, test.line, test.col, old(test.tree.children) + [n])
    {
      var p := ParseLine(kind, kw, what);
      var line := p.value;
      n := line.tree;
      var _ := test.Add(line);
    }

    /** The end of parseTest: the '}' the body loop stopped at, then an
        optional NEWLINE. */
    method CloseTest()
      requires Valid() && toks[i].lexeme == "}"
      modifies this`i
      ensures Valid() && i == SkipNewline(toks, old(i) + 1)
    {
      var _ := ConsumeLex("}", CloseBrace);
      var _ := ConsumeIf(NEWLINE);
    }

    /** parseTest. */
    method ParseTest() returns (r: Result<BizNode>)
      requires Valid()
      modifies this`i
      ensures Valid()
      ensures Got(r) == Grammar.ParseTest(toks, old(i))
      ensures r.Ok? ==> r.value.Valid() && fresh(r.value.Repr)
    {
      ghost var i0 := i;
      var h := TestHeader();
      if h.Err? {
        return Err(h.error);
      }
      assert Grammar.ParseTest(toks, i0) == TestResult(toks, h.value, Grammar.TestBody(toks, i, []));
      r := TestFrom(h.value);
    }

    /** The rest of parseTest after its opening h: the Test node, the body
        loop and the closing '}'. */
    method TestFrom(h: Opening) returns (r: Result<BizNode>)
      requires Valid()
      modifies this`i
      ensures Valid()
      ensures Got(r) == TestResult(toks, h, Grammar.TestBody(toks, old(i), []))
      ensures r.Ok? ==> r.value.Valid() && fresh(r.value.Repr)
    {
      ghost var s := Grammar.TestBody(toks, i, []);
      var test := new BizNode(Test, StripQuotes(h.name.lexeme), h.start.line, h.start.col);
      var b := TestBody(test);
      if b.Err? {
        return Err(b.error);
      }
      CloseTest();
      assert TestResult(toks, h, s) == Ok(Parsed(test.tree, i));
      return Ok(test);
    }

    /** One item of parseProgram: parseRule or parseTest by the current
        lexeme, an error at any other token. */
    method ParseItem() returns (r: Result<BizNode>)
      requires Valid()
      modifies this`i
      ensures Valid()
      ensures Got(r) == Grammar.ParseItem(toks, old(i))
      ensures r.Ok? ==> r.value.Valid() && fresh(r.value.Repr)
    {
      if toks[i].lexeme == "rule" {
        r := ParseRule();
      } else if toks[i].lexeme == "test" {
        r := ParseTest();
      } else {
        r := Err(ParseError(RuleOrTest, toks[i]));
      }
    }

    /** One item of parseProgram added to prog: the error, if any, or the
        item's tree n. */
    method AddItem(prog: BizNode) returns (e: Option<Failure>, ghost n: Node)
      requires Valid() && prog.Valid()
      modifies this`i, prog`children, prog`tree, prog`Repr
      ensures Valid() && prog.Valid() && fresh(prog.Repr - old(prog.Repr))
      ensures e.Some? ==> Grammar.ParseItem(toks, old(i)) == Err(e.value) && prog.tree == old(prog.tree)
      ensures e.None? ==> Grammar.ParseItem(toks, old(i)) == Ok(Parsed(n, i))
      ensures e.None? ==> prog.tree == Node(prog.kind, prog.text, prog.line, prog.col, old(prog.tree.children) + [n])
    {
      var item := ParseItem();
      if item.Err? {
        return Some(item.error), prog.tree;
      }
      n := item.value.tree;
      var _ := prog.Add(item.value);
      e := None;
    }

    /** parseProgram: the whole token list, which must run up to EOF. */
    method ParseProgram() returns (r: Result<BizNode>)
      requires Valid() && i == 0
      modifies this`i
      ensures r.Err? ==> Grammar.ParseProgram(toks) == Err(r.error)
      ensures r.Ok? ==> Grammar.ParseProgram(toks).Ok? && r.value.Valid() && r.value.tree == Grammar.ParseProgram(toks).value
      ensures r.Ok? ==> fresh(r.value.Repr)
    {
      var prog := new BizNode(Program, "", toks[i].line, toks[i].col);
      var e := ProgramBody(prog);
      if e.Some? {
        return Err(e.value);
      }
      var _ := Consume(EOF, EndOfInput);
      return Ok(prog);
    }

    /** The item loop of parseProgram: blank lines skipped, then a rule or a
        test added to prog, until EOF; the error of the first item that fails
        stops it. */
    method ProgramBody(prog: BizNode) returns (e: Option<Failure>)
      requires Valid() && prog.Valid()
      modifies this`i, prog`children, prog`tree, prog`Repr
      ensures Valid() && prog.Valid() && fresh(prog.Repr - old(prog.Repr))
      ensures var s := ProgramItems(toks, old(i), old(prog.tree.children));
        && (e.Some? <==> s.Err?)
        && (e.Some? ==> s.error == e.value)
        && (e.None? ==> toks[i].ttype == EOF && s.value == prog.tree.children)
      ensures prog.tree == Node(prog.kind, prog.text, prog.line, prog.col, prog.tree.children)
    {
      ghost var start := i;
      ghost var acc := prog.tree.children;
      while toks[i].ttype != EOF
        invariant Valid() && prog.Valid() && fresh(prog.Repr - old(prog.Repr))
        invariant prog.tree == Node(prog.kind, prog.text, prog.line, prog.col, acc)
        invariant ProgramItems(toks, i, acc) == ProgramItems(toks, start, old(prog.tree.children))
        decreases |toks| - i
      {
        ghost var i0 := i;
        SkipNewlines();
        if toks[i].ttype == EOF {
          assert ProgramItems(toks, i0, acc) == Ok(acc);
          break;
        }
        ghost var n;
        e, n := AddItem(prog);
        if e.Some? {
          assert ProgramItems(toks, i0, acc) == Err(e.value);
          return;
        }
        assert ProgramItems(toks, i0, acc) == ProgramItems(toks, i, acc + [n]);
        acc := acc + [n];
      }
      e := None;
    }
  }

  /** The parser run on a fresh object computes the specification. */
  method Parse(tokens: seq<Token>) returns (r: Result<BizNode>)
    requires Terminated(tokens)
    ensures r.Err? ==> ParseProgram(tokens) == Err(r.error)
    ensures r.Ok? ==> ParseProgram(tokens).Ok? && r.value.Valid() && r.value.tree == ParseProgram(tokens).value
    ensures r.Ok? ==> fresh(r.value.Repr)
  {
    var p := new Parser(tokens);
    r := p.ParseProgram();
  }

  /** The Set node of a rule with its Target and Value children. */
  method BuildSet(p: RuleParts) returns (assign: BizNode)
    ensures assign.Valid() && fresh(assign.Repr) && assign.tree == RuleNode(p).children[1]
  {
    assign := new BizNode(Set, "", p.start.line, p.start.col);
    var tg := new BizNode(Target, p.target.lexeme, p.target.line, p.target.col);
    var _ := assign.Add(tg);
    var vl := new BizNode(Value, p.value, p.start.line, p.start.col);
    var _ := assign.Add(vl);
  }

  /** The building half of parseRule: the node calls and adds. */
  method BuildRule(p: RuleParts) returns (rule: BizNode)
    ensures rule.Valid() && fresh(rule.Repr) && rule.tree == RuleNode(p)
  {
    rule := new BizNode(Rule, StripQuotes(p.name.lexeme), p.start.line, p.start.col);
    var when := new BizNode(When, p.cond, p.start.line, p.start.col);
    var _ := rule.Add(when);
    var assign := BuildSet(p);
    var _ := rule.Add(assign);
  }
}
