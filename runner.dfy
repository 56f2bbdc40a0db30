/** Evaluator.run as the source writes it: loops over the tree's BizNode
    objects to collect rules and tests, and for every test loops that load
    the givens, apply the rules and score the expects while counting passes
    and failures. Each loop nest of run is one method here, proved to
    compute the functions of module TestRun with evalExpr as the
    evaluator. */
module Running {
  import opened Text
  import opened Tokens
  import opened Ast
  import opened Values
  import opened Environment
  import opened Expressions
  import opened TestRun
  import opened TestRunFacts


  /** The tree below a node reference, none for null. */
  ghost function TreeOf(n: BizNode?): Option<Node>
    reads n
  {
    if n == null then None else Some(n.tree)
  }

  // ----- reading the tree -----

  /** child(n, kind): the first child of the kind, null when there is none
      or when n is null. */
  method Child(n: BizNode?, k: Kind) returns (c: BizNode?)
    requires n != null ==> n.Valid()
    ensures TreeOf(c) == TestRun.Child(TreeOf(n), k)
    ensures c != null ==> n != null && c.Valid()
  {
    if n == null {
      return null;
    }
    for j := 0 to |n.children|
      invariant forall i :: 0 <= i < j ==> n.tree.children[i].kind != k
    {
      var ch := n.children[j];
      assert ch.Valid() && ch.tree == n.tree.children[j];
      assert ch.Holds();
      if ch.kind == k {
        assert FirstOfKind(n.tree.children, k) == j;
        return ch;
      }
    }
    assert FirstOfKind(n.tree.children, k) == |n.children|;
    return null;
  }

  /** childText(n, kind): the child's text, or the empty text. */
  method ChildText(n: BizNode?, k: Kind) returns (s: string)
    requires n != null ==> n.Valid()
    ensures s == TestRun.ChildText(TreeOf(n), k)
  {
    var c := Child(n, k);
    s := if c == null then "" else c.text;
  }

  /** extractRules(program): one rule per Rule child, in order. */
  method ExtractRules(program: BizNode) returns (rs: seq<RuleDef>)
    requires program.Valid()
    ensures rs == RulesOf(program.tree.children)
  {
    var cs := program.tree.children;
    rs := [];
    for j := 0 to |program.children|
      invariant rs == RulesOf(cs[..j])
    {
      assert cs[..j + 1][..j] == cs[..j];
      var n := program.children[j];
      assert n.Valid() && n.tree == cs[j];
      assert n.Holds();
      if n.kind == Rule {
        var when := ChildText(n, When);
        var setNode := Child(n, Set);
        var target := ChildText(setNode, Target);
        var value := ChildText(setNode, Value);
        rs := rs + [RuleDef(n.text, when, target, value)];
      }
    }
    assert cs[..|cs|] == cs;
  }

  /** The inner loop of extractTests: the givens and the expects among a
      test's children, in order. */
  method TestOfNode(n: BizNode) returns (tc: TestCase)
    requires n.Valid()
    ensures tc == TestOf(n.tree)
  {
    var cs := n.tree.children;
    var givens, expects := [], [];
    for j := 0 to |n.children|
      invariant givens == TextsOf(cs[..j], Given) && expects == TextsOf(cs[..j], Expect)
    {
      assert cs[..j + 1][..j] == cs[..j];
      var c := n.children[j];
      assert c.Valid() && c.tree == cs[j];
      assert c.Holds();
      if c.kind == Given {
        givens := givens + [c.text];
      }
      if c.kind == Expect {
        expects := expects + [c.text];
      }
    }
    assert cs[..|cs|] == cs;
    tc := TestCase(n.text, givens, expects);
  }

  /** extractTests(program): one test per Test child, in order. */
  method ExtractTests(program: BizNode) returns (ts: seq<TestCase>)
    requires program.Valid()
    ensures ts == TestsOf(program.tree.children)
  {
    var cs := program.tree.children;
    ts := [];
    for j := 0 to |program.children|
      invariant ts == TestsOf(cs[..j])
    {
      assert cs[..j + 1][..j] == cs[..j];
      var n := program.children[j];
      assert n.Valid() && n.tree == cs[j];
      assert n.Holds();
      if n.kind == Test {
        var tc := TestOfNode(n);
        ts := ts + [tc];
      }
    }
    assert cs[..|cs|] == cs;
  }

  // ----- one test -----

  /** The inner loop of the givens: the comma-separated parts of one given,
      each evaluated and stored with putDeep. */
  method LoadParts(ev: Evaluator, env: Env, parts: seq<string>) returns (r: Result<Env>)
    ensures r == TestRun.LoadParts(ev, env, parts)
  {
    var cur := env;
    for j := 0 to |parts|
      invariant TestRun.LoadParts(ev, env, parts[..j]) == Ok(cur)
    {
      assert parts[..j + 1][..j] == parts[..j];
      var s := JavaTrim(parts[j]);
      if s == "" {
        continue;
      }
      var kv := SplitFirst(s, '=');
      if |kv| != 2 {
        continue;
      }
      var key := JavaTrim(kv[0]);
      var rhs := JavaTrim(kv[1]);
      match ev(rhs, cur) {
        case Err(e) =>
          PartsFailEarly(ev, env, parts, j + 1);
          return Err(e);
        case Ok(v) =>
          var next := PutDeep(cur, key, v);
          if next.Err? {
            PartsFailEarly(ev, env, parts, j + 1);
            return Err(next.error);
          }
          cur := next.value;
      }
    }
    assert parts[..|parts|] == parts;
    return Ok(cur);
  }

  /** Loading the givens into a fresh environment, each split on ','. */
  method LoadGivens(ev: Evaluator, givens: seq<string>) returns (r: Result<Env>)
    ensures r == TestRun.LoadGivens(ev, map[], givens)
  {
    var env: Env := map[];
    for j := 0 to |givens|
      invariant TestRun.LoadGivens(ev, map[], givens[..j]) == Ok(env)
    {
      GivensStep(ev, map[], givens, j, env);
      var next := LoadParts(ev, env, JavaSplit(givens[j], ','));
      match next {
        case Err(e) =>
          return Err(e);
        case Ok(e1) =>
          env := e1;
      }
    }
    assert givens[..|givens|] == givens;
    return Ok(env);
  }

  /** The rule loop: a rule whose target is assigned already is skipped,
      otherwise its condition is evaluated and, when truthy, its value is
      stored at its target and reported. */
  method ApplyRules(ev: Evaluator, env: Env, rules: seq<RuleDef>) returns (r: Result<RuleState>)
    ensures r == TestRun.ApplyRules(ev, RuleState(env, {}, []), rules)
  {
    var cur: Env, targets: set<string>, lines: seq<Line> := env, {}, [];
    for j := 0 to |rules|
      invariant TestRun.ApplyRules(ev, RuleState(env, {}, []), rules[..j]) == Ok(RuleState(cur, targets, lines))
    {
      assert rules[..j + 1][..j] == rules[..j];
      var rule := rules[j];
      if rule.target in targets {
        continue;
      }
      var cond := ev(rule.condition, cur);
      if cond.Err? {
        RulesFailEarly(ev, RuleState(env, {}, []), rules, j + 1);
        return Err(cond.error);
      }
      if Truthy(cond.value) {
        var rhs := ev(rule.valueExpr, cur);
        if rhs.Err? {
          RulesFailEarly(ev, RuleState(env, {}, []), rules, j + 1);
          return Err(rhs.error);
        }
        var next := PutDeep(cur, rule.target, rhs.value);
        if next.Err? {
          RulesFailEarly(ev, RuleState(env, {}, []), rules, j + 1);
          return Err(next.error);
        }
        cur := next.value;
        targets := targets + {rule.target};
        lines := lines + [RuleApplied(rule.name, rule.target, rhs.value)];
      }
    }
    assert rules[..|rules|] == rules;
    return Ok(RuleState(cur, targets, lines));
  }

  /** The expect loop: one line per expect and allOk &= truthy. */
  method ScoreExpects(ev: Evaluator, env: Env, exs: seq<string>) returns (r: Result<Scored>)
    ensures r == TestRun.ScoreExpects(ev, env, exs)
  {
    var lines, allOk := [], true;
    for j := 0 to |exs|
      invariant TestRun.ScoreExpects(ev, env, exs[..j]) == Ok(Scored(lines, allOk))
    {
      assert exs[..j + 1][..j] == exs[..j];
      var res := ev(exs[j], env);
      if res.Err? {
        ScoreFailEarly(ev, env, exs, j + 1);
        return Err(res.error);
      }
      var ok := Truthy(res.value);
      allOk := allOk && ok;
      lines := lines + [ExpectResult(exs[j], ok)];
    }
    assert exs[..|exs|] == exs;
    return Ok(Scored(lines, allOk));
  }

  /** The body of run's test loop: a fresh environment, the givens, the
      rules and the expects. */
  method RunTest(ev: Evaluator, rules: seq<RuleDef>, tc: TestCase) returns (r: Result<TestOutcome>)
    ensures r == TestRun.RunTest(ev, rules, tc)
  {
    var env :- LoadGivens(ev, tc.givens);
    var st :- ApplyRules(ev, env, rules);
    var s :- ScoreExpects(ev, st.env, tc.expects);
    return Ok(TestOutcome([Title(tc.name)] + st.lines + s.lines + [Verdict(s.allOk)], s.allOk));
  }

  /** run's loop over the tests: every test's lines, and the counts of
      passed and failed tests. */
  method RunTests(ev: Evaluator, rules: seq<RuleDef>, tests: seq<TestCase>) returns (r: Result<Tally>)
    ensures r == TestRun.RunTests(ev, rules, tests)
  {
    var lines: seq<Line>, passed: nat, failed: nat := [], 0, 0;
    ghost var all := Outcomes(ev, rules, tests);
    for j := 0 to |tests|
      invariant TallyOf(all[..j]) == Ok(Tally(lines, passed, failed))
    {
      TallyStep(all, j, Tally(lines, passed, failed));
      OutcomeAt(ev, rules, tests, j);
      var o := RunTest(ev, rules, tests[j]);
      if o.Err? {
        return Err(o.error);
      }
      lines := lines + o.value.lines;
      if o.value.pass {
        passed := passed + 1;
      } else {
        failed := failed + 1;
      }
    }
    assert all[..|tests|] == all;
    return Ok(Tally(lines, passed, failed));
  }

  /** run(program): the header; the no-tests line when there is no test;
      otherwise every test, counted as passed or failed, and the summary. */
  method Run(program: BizNode) returns (r: Result<seq<Line>>)
    requires program.Valid()
    ensures r == TestRun.Run(program.tree)
  {
    var rules := ExtractRules(program);
    var tests := ExtractTests(program);
    if tests == [] {
      return Ok([Header, NoTests]);
    }
    var t :- RunTests(EvalExpr, rules, tests);
    return Ok([Header] + t.lines + [Summary(t.passed, t.failed)]);
  }
}
