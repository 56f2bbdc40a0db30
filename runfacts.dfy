/** Properties of the test runner's specification (module TestRun): what is
    read off a parsed tree, how givens and tests compose, that a target is
    set by one rule at most and keeps the value of that rule, and when a
    test passes. */
module TestRunFacts {
  import opened Text
  import opened Tokens
  import opened Ast
  import opened Values
  import opened Environment
  import opened Expressions
  import opened GrammarFacts
  import opened TestRun

  // ----- reading the tree -----

  /** A rule as the parser builds it is read back from its children: the
      condition from its When, target and value from the two leaves of its
      Set. */
  lemma RuleReadBack(n: Node)
    requires RuleShaped(n)
    ensures RuleOf(n) == RuleDef(n.text, n.children[0].text, n.children[1].children[0].text, n.children[1].children[1].text)
  {
    assert FirstOfKind(n.children, When) == 0;
    assert FirstOfKind(n.children, Set) == 1;
    var s := n.children[1];
    assert FirstOfKind(s.children, Target) == 0;
    assert FirstOfKind(s.children, Value) == 1;
  }

  /** extractRules keeps program order: it reads a concatenation as the
      concatenation of what it reads from each part. */
  lemma {:induction false} RulesOfConcat(a: seq<Node>, b: seq<Node>)
    ensures RulesOf(a + b) == RulesOf(a) + RulesOf(b)
    decreases |b|
  {
    if b == [] {
      assert a + b == a;
    } else {
      assert (a + b)[..|a + b| - 1] == a + b[..|b| - 1];
      RulesOfConcat(a, b[..|b| - 1]);
    }
  }

  /** extractTests keeps program order in the same way. */
  lemma {:induction false} TestsOfConcat(a: seq<Node>, b: seq<Node>)
    ensures TestsOf(a + b) == TestsOf(a) + TestsOf(b)
    decreases |b|
  {
    if b == [] {
      assert a + b == a;
    } else {
      assert (a + b)[..|a + b| - 1] == a + b[..|b| - 1];
      TestsOfConcat(a, b[..|b| - 1]);
    }
  }

  /** In a parsed program every item is read either as a rule or as a test. */
  lemma {:induction false} ItemsAreRulesOrTests(cs: seq<Node>)
    requires forall c :: c in cs ==> ItemShaped(c)
    ensures |RulesOf(cs)| + |TestsOf(cs)| == |cs|
    decreases |cs|
  {
    if cs != [] {
      assert forall c :: c in cs[..|cs| - 1] ==> c in cs;
      assert cs[|cs| - 1] in cs;
      ItemsAreRulesOrTests(cs[..|cs| - 1]);
    }
  }

  /** In a parsed test every child is read either as a given or as an
      expect. */
  lemma {:induction false} ChildrenAreGivensOrExpects(cs: seq<Node>)
    requires forall c :: c in cs ==> Leaf(c, Given) || Leaf(c, Expect)
    ensures |TextsOf(cs, Given)| + |TextsOf(cs, Expect)| == |cs|
    decreases |cs|
  {
    if cs != [] {
      assert forall c :: c in cs[..|cs| - 1] ==> c in cs;
      assert cs[|cs| - 1] in cs;
      ChildrenAreGivensOrExpects(cs[..|cs| - 1]);
    }
  }

  /** Nothing of a parsed program is lost on the way to the runner. */
  lemma ProgramReadWhole(p: Node)
    requires ProgramShaped(p)
    ensures |RulesOf(p.children)| + |TestsOf(p.children)| == |p.children|
    ensures forall c :: c in p.children && c.kind == Test ==>
      |TestOf(c).givens| + |TestOf(c).expects| == |c.children|
  {
    ItemsAreRulesOrTests(p.children);
    forall c | c in p.children && c.kind == Test
      ensures |TestOf(c).givens| + |TestOf(c).expects| == |c.children|
    {
      assert TestShaped(c);
      ChildrenAreGivensOrExpects(c.children);
    }
  }

  // ----- givens -----

  /** A part key=rhs (once trimmed) evaluates its trimmed right-hand side in
      the environment loaded so far and stores it at its trimmed key; the
      right-hand side may itself hold '='. */
  lemma AssignmentPart(ev: Evaluator, env: Env, part: string, key: string, rhs: string)
    requires JavaTrim(part) == key + "=" + rhs && '=' !in key
    ensures LoadPart(ev, env, part) ==
      match ev(JavaTrim(rhs), env)
      case Err(e) => Err(e)
      case Ok(v) => PutDeep(env, JavaTrim(key), v)
  {
    SplitFirstAtFirst(key, '=', rhs);
  }

  /** A name without '.' and without surrounding blanks is stored as a
      top-level entry and nothing else changes. */
  lemma SimplePut(env: Env, name: string, v: Value)
    requires '.' !in name && Trimmed(name)
    ensures PutDeep(env, name, v) == Ok(env[name := v])
  {
    TrimOfTrimmed(name);
    assert Segments(name) == [name];
  }

  /** Loading the givens a + b is loading a, then b in the environment a
      left; a failure in a stops everything. */
  lemma {:induction false} GivensCompose(ev: Evaluator, env: Env, a: seq<string>, b: seq<string>)
    ensures LoadGivens(ev, env, a + b) ==
      match LoadGivens(ev, env, a)
      case Err(e) => Err(e)
      case Ok(e1) => LoadGivens(ev, e1, b)
    decreases |b|
  {
    if b == [] {
      assert a + b == a;
    } else {
      assert (a + b)[..|a + b| - 1] == a + b[..|b| - 1];
      GivensCompose(ev, env, a, b[..|b| - 1]);
    }
  }

  /** Parts compose in the same way: the parts of a given are loaded left to
      right, each seeing the names stored by the ones before it. */
  lemma {:induction false} PartsCompose(ev: Evaluator, env: Env, a: seq<string>, b: seq<string>)
    ensures LoadParts(ev, env, a + b) ==
      match LoadParts(ev, env, a)
      case Err(e) => Err(e)
      case Ok(e1) => LoadParts(ev, e1, b)
    decreases |b|
  {
    if b == [] {
      assert a + b == a;
    } else {
      assert (a + b)[..|a + b| - 1] == a + b[..|b| - 1];
      PartsCompose(ev, env, a, b[..|b| - 1]);
    }
  }

  /** A blank part, or one without '=', leaves the environment as it is. */
  lemma IgnoredPart(ev: Evaluator, env: Env, part: string)
    requires JavaTrim(part) == "" || '=' !in JavaTrim(part)
    ensures LoadPart(ev, env, part) == Ok(env)
  {
  }

  /** A failure while loading the first givens is the result of loading
      them all: the first exception ends the test. */
  lemma {:induction false} GivensFailEarly(ev: Evaluator, env: Env, gs: seq<string>, j: nat)
    requires j <= |gs| && LoadGivens(ev, env, gs[..j]).Err?
    ensures LoadGivens(ev, env, gs) == LoadGivens(ev, env, gs[..j])
    decreases |gs|
  {
    if j < |gs| {
      assert gs[..|gs| - 1][..j] == gs[..j];
      GivensFailEarly(ev, env, gs[..|gs| - 1], j);
    } else {
      assert gs[..j] == gs;
    }
  }

  /** One turn of the givens loop: the next given's parts are loaded into
      the environment so far, and a failure there is the result. */
  lemma GivensStep(ev: Evaluator, env0: Env, gs: seq<string>, j: nat, env: Env)
    requires j < |gs| && LoadGivens(ev, env0, gs[..j]) == Ok(env)
    ensures LoadGivens(ev, env0, gs[..j + 1]) == LoadParts(ev, env, JavaSplit(gs[j], ','))
    ensures LoadParts(ev, env, JavaSplit(gs[j], ',')).Err? ==>
      LoadGivens(ev, env0, gs) == LoadParts(ev, env, JavaSplit(gs[j], ','))
  {
    assert gs[..j + 1][..j] == gs[..j];
    if LoadParts(ev, env, JavaSplit(gs[j], ',')).Err? {
      GivensFailEarly(ev, env0, gs, j + 1);
    }
  }

  /** The same for the parts of one given. */
  lemma {:induction false} PartsFailEarly(ev: Evaluator, env: Env, ps: seq<string>, j: nat)
    requires j <= |ps| && LoadParts(ev, env, ps[..j]).Err?
    ensures LoadParts(ev, env, ps) == LoadParts(ev, env, ps[..j])
    decreases |ps|
  {
    if j < |ps| {
      assert ps[..|ps| - 1][..j] == ps[..j];
      PartsFailEarly(ev, env, ps[..|ps| - 1], j);
    } else {
      assert ps[..j] == ps;
    }
  }

  // ----- rules -----

  /** Every line of the rule loop records an applied rule whose target is
      marked as assigned, and no two lines share a target. */
  ghost predicate Distinct(st: RuleState) {
    && (forall k :: 0 <= k < |st.lines| ==> st.lines[k].RuleApplied? && st.lines[k].target in st.done)
    && (forall j, k :: 0 <= j < k < |st.lines| ==> st.lines[j].target != st.lines[k].target)
  }

  /** Every applied rule's value is still the value of its target. */
  ghost predicate Kept(st: RuleState) {
    forall k :: 0 <= k < |st.lines| ==>
      st.lines[k].RuleApplied? && st.lines[k].target in st.env && st.env[st.lines[k].target] == st.lines[k].value
  }

  /** A rule whose target is a plain name: no '.' and no surrounding blanks,
      as the parser's single IDENT targets are. */
  predicate PlainTarget(r: RuleDef) {
    '.' !in r.target && Trimmed(r.target)
  }

  /** A rule whose target is assigned already is skipped whatever its
      condition and value texts are, even ones that would not evaluate. */
  lemma SkippedRuleIgnored(ev: Evaluator, st: RuleState, r: RuleDef, condition: string, valueExpr: string)
    requires r.target in st.done
    ensures ApplyRule(ev, st, RuleDef(r.name, condition, r.target, valueExpr)) == Ok(st)
  {
  }

  /** One rule step: the lines only grow, the assigned targets only grow, and
      a new line is for a target not assigned before. */
  lemma ApplyRuleDistinct(ev: Evaluator, st: RuleState, r: RuleDef)
    requires Distinct(st)
    ensures ApplyRule(ev, st, r).Ok? ==>
      var s1 := ApplyRule(ev, st, r).value;
      Distinct(s1) && st.done <= s1.done && st.lines <= s1.lines
  {
    if ApplyRule(ev, st, r).Ok? && ApplyRule(ev, st, r).value != st {
      var s1 := ApplyRule(ev, st, r).value;
      assert s1.lines == st.lines + [s1.lines[|st.lines|]];
      assert s1.lines[|st.lines|].target == r.target && r.target !in st.done;
    }
  }

  /** No target is set by two rules in one test: the loop marks every
      applied target and skips the rules of a marked one. */
  lemma {:induction false} AppliedTargetsDistinct(ev: Evaluator, st: RuleState, rs: seq<RuleDef>)
    requires Distinct(st)
    ensures ApplyRules(ev, st, rs).Ok? ==>
      var s1 := ApplyRules(ev, st, rs).value;
      Distinct(s1) && st.done <= s1.done && st.lines <= s1.lines
    decreases |rs|
  {
    if rs != [] {
      AppliedTargetsDistinct(ev, st, rs[..|rs| - 1]);
      var m := ApplyRules(ev, st, rs[..|rs| - 1]);
      if m.Ok? {
        ApplyRuleDistinct(ev, m.value, rs[|rs| - 1]);
      }
    }
  }

  /** What one rule step does: nothing, or the value of the rule stored at
      its target, the target marked and a line reported. */
  lemma ApplyRuleCases(ev: Evaluator, st: RuleState, r: RuleDef)
    ensures ApplyRule(ev, st, r).Ok? && ApplyRule(ev, st, r).value != st ==>
      && r.target !in st.done && ev(r.valueExpr, st.env).Ok?
      && (var v := ev(r.valueExpr, st.env).value;
          && PutDeep(st.env, r.target, v).Ok?
          && ApplyRule(ev, st, r).value == RuleState(PutDeep(st.env, r.target, v).value, st.done + {r.target}, st.lines + [RuleApplied(r.name, r.target, v)]))
  {
  }

  /** Storing a new target keeps the values of the targets reported before. */
  lemma KeptStep(st: RuleState, r: RuleDef, v: Value)
    requires Distinct(st) && Kept(st) && r.target !in st.done
    ensures Kept(RuleState(st.env[r.target := v], st.done + {r.target}, st.lines + [RuleApplied(r.name, r.target, v)]))
  {
  }

  /** One rule step with a plain target keeps the value of every rule
      applied before. */
  lemma ApplyRuleKept(ev: Evaluator, st: RuleState, r: RuleDef)
    requires Distinct(st) && Kept(st) && PlainTarget(r)
    ensures ApplyRule(ev, st, r).Ok? ==> Kept(ApplyRule(ev, st, r).value)
  {
    ApplyRuleCases(ev, st, r);
    if ApplyRule(ev, st, r).Ok? && ApplyRule(ev, st, r).value != st {
      var v := ev(r.valueExpr, st.env).value;
      SimplePut(st.env, r.target, v);
      KeptStep(st, r, v);
    }
  }

  /** The first rule of a target whose condition holds wins: with plain
      targets, the value each applied rule reported is the value its
      target holds once all rules have run. */
  lemma {:induction false} FirstRuleWins(ev: Evaluator, st: RuleState, rs: seq<RuleDef>)
    requires Distinct(st) && Kept(st)
    requires forall k :: 0 <= k < |rs| ==> PlainTarget(rs[k])
    ensures ApplyRules(ev, st, rs).Ok? ==> Kept(ApplyRules(ev, st, rs).value)
    decreases |rs|
  {
    if rs != [] {
      FirstRuleWins(ev, st, rs[..|rs| - 1]);
      AppliedTargetsDistinct(ev, st, rs[..|rs| - 1]);
      var m := ApplyRules(ev, st, rs[..|rs| - 1]);
      if m.Ok? {
        ApplyRuleKept(ev, m.value, rs[|rs| - 1]);
      }
    }
  }

  /** A failure in the first rules is the failure of the rule loop. */
  lemma {:induction false} RulesFailEarly(ev: Evaluator, st: RuleState, rs: seq<RuleDef>, j: nat)
    requires j <= |rs| && ApplyRules(ev, st, rs[..j]).Err?
    ensures ApplyRules(ev, st, rs) == ApplyRules(ev, st, rs[..j])
    decreases |rs|
  {
    if j < |rs| {
      assert rs[..|rs| - 1][..j] == rs[..j];
      RulesFailEarly(ev, st, rs[..|rs| - 1], j);
    } else {
      assert rs[..j] == rs;
    }
  }

  /** One rule whose target is still free: a falsy condition leaves the
      state as it is; a truthy one stores the value at the target, marks the
      target and reports the rule. */
  lemma RuleFires(ev: Evaluator, st: RuleState, r: RuleDef, c: Value, v: Value, env': Env)
    requires r.target !in st.done && ev(r.condition, st.env) == Ok(c)
    ensures !Truthy(c) ==> ApplyRule(ev, st, r) == Ok(st)
    ensures Truthy(c) && ev(r.valueExpr, st.env) == Ok(v) && PutDeep(st.env, r.target, v) == Ok(env') ==>
      ApplyRule(ev, st, r) == Ok(RuleState(env', st.done + {r.target}, st.lines + [RuleApplied(r.name, r.target, v)]))
  {
  }

  /** The state of the rule loop when the turn of rule k comes. */
  ghost function StateAt(ev: Evaluator, st: RuleState, rs: seq<RuleDef>, k: nat): Result<RuleState>
    requires k <= |rs|
  {
    ApplyRules(ev, st, rs[..k])
  }

  /** The loop reaches rule k and its condition is truthy then. */
  ghost predicate TruthyAtTurn(ev: Evaluator, st: RuleState, rs: seq<RuleDef>, k: nat)
    requires k < |rs|
  {
    var s := StateAt(ev, st, rs, k);
    s.Ok? && ev(rs[k].condition, s.value.env).Ok? && Truthy(ev(rs[k].condition, s.value.env).value)
  }

  /** Rule k fires: its condition is truthy at its turn and its target is
      still free then. */
  ghost predicate FiresAtTurn(ev: Evaluator, st: RuleState, rs: seq<RuleDef>, k: nat)
    requires k < |rs|
  {
    TruthyAtTurn(ev, st, rs, k) && rs[k].target !in StateAt(ev, st, rs, k).value.done
  }

  /** The targets of the rules among the first k that fired. */
  ghost function FiredTargets(ev: Evaluator, st: RuleState, rs: seq<RuleDef>, k: nat): set<string>
    requires k <= |rs|
  {
    if k == 0 then {}
    else FiredTargets(ev, st, rs, k - 1) + (if FiresAtTurn(ev, st, rs, k - 1) then {rs[k - 1].target} else {})
  }

  /** A loop that gets past rule k got to it, and rule k's turn is one
      ApplyRule on the state then. */
  lemma TurnStep(ev: Evaluator, st: RuleState, rs: seq<RuleDef>, k: nat)
    requires k < |rs| && StateAt(ev, st, rs, k + 1).Ok?
    ensures StateAt(ev, st, rs, k).Ok?
    ensures StateAt(ev, st, rs, k + 1) == ApplyRule(ev, StateAt(ev, st, rs, k).value, rs[k])
  {
    assert rs[..k + 1][..k] == rs[..k];
    assert rs[..k + 1][k] == rs[k];
  }

  /** A rule that fires adds its target to the assigned ones; any other
      rule leaves the state as it is. */
  lemma FiringTurn(ev: Evaluator, st: RuleState, rs: seq<RuleDef>, k: nat)
    requires k < |rs| && StateAt(ev, st, rs, k + 1).Ok?
    ensures StateAt(ev, st, rs, k).Ok?
    ensures var before := StateAt(ev, st, rs, k).value; var after := StateAt(ev, st, rs, k + 1).value;
      && (FiresAtTurn(ev, st, rs, k) ==>
            && ev(rs[k].valueExpr, before.env).Ok?
            && after.done == before.done + {rs[k].target}
            && after.lines == before.lines + [RuleApplied(rs[k].name, rs[k].target, ev(rs[k].valueExpr, before.env).value)])
      && (!FiresAtTurn(ev, st, rs, k) ==> after == before)
  {
    TurnStep(ev, st, rs, k);
  }

  /** The targets assigned when rule k's turn comes are the ones assigned
      before the loop and those of the earlier rules that fired. */
  lemma {:induction false} DoneAtTurn(ev: Evaluator, st: RuleState, rs: seq<RuleDef>, k: nat)
    requires k <= |rs| && StateAt(ev, st, rs, k).Ok?
    ensures StateAt(ev, st, rs, k).value.done == st.done + FiredTargets(ev, st, rs, k)
  {
    if k == 0 {
      assert rs[..0] == [];
    } else {
      TurnStep(ev, st, rs, k - 1);
      DoneAtTurn(ev, st, rs, k - 1);
      FiringTurn(ev, st, rs, k - 1);
    }
  }

  /** A fired target is the target of an earlier rule that fired. */
  lemma {:induction false} FiredTargetsMeaning(ev: Evaluator, st: RuleState, rs: seq<RuleDef>, k: nat, x: string)
    requires k <= |rs|
    ensures x in FiredTargets(ev, st, rs, k) <==>
      exists j :: 0 <= j < k && FiresAtTurn(ev, st, rs, j) && rs[j].target == x
  {
    if k > 0 {
      FiredTargetsMeaning(ev, st, rs, k - 1, x);
    }
  }

  /** Evaluator.run's rule loop: rule k fires exactly when its target was
      not assigned before the loop, no earlier rule of the same target
      fired, and its condition is truthy at its turn; so a target gets the
      value of the first of its rules whose condition is truthy. */
  lemma FirstTruthyRuleFires(ev: Evaluator, st: RuleState, rs: seq<RuleDef>, k: nat)
    requires k < |rs| && StateAt(ev, st, rs, k).Ok?
    ensures FiresAtTurn(ev, st, rs, k) <==>
      && rs[k].target !in st.done
      && (forall j :: 0 <= j < k && rs[j].target == rs[k].target ==> !FiresAtTurn(ev, st, rs, j))
      && TruthyAtTurn(ev, st, rs, k)
  {
    DoneAtTurn(ev, st, rs, k);
    FiredTargetsMeaning(ev, st, rs, k, rs[k].target);
  }

  /** A rule loop that succeeds reaches every rule. */
  lemma EveryTurnReached(ev: Evaluator, st: RuleState, rs: seq<RuleDef>, k: nat)
    requires k <= |rs| && ApplyRules(ev, st, rs).Ok?
    ensures StateAt(ev, st, rs, k).Ok?
  {
    if ApplyRules(ev, st, rs[..k]).Err? {
      RulesFailEarly(ev, st, rs, k);
    }
  }

  // ----- expects and tests -----

  /** The expects are scored in order, each by its own truthiness in the
      environment after the rules; the test passes exactly when every one of
      them is truthy, and any that fails to evaluate fails the run. */
  lemma {:induction false} ScoreMeaning(ev: Evaluator, env: Env, exs: seq<string>)
    ensures ScoreExpects(ev, env, exs).Ok? <==> forall k :: 0 <= k < |exs| ==> ev(exs[k], env).Ok?
    ensures ScoreExpects(ev, env, exs).Ok? ==>
      && (forall k :: 0 <= k < |exs| ==>
            ScoreExpects(ev, env, exs).value.lines[k] == ExpectResult(exs[k], Truthy(ev(exs[k], env).value)))
      && (ScoreExpects(ev, env, exs).value.allOk <==> forall k :: 0 <= k < |exs| ==> Truthy(ev(exs[k], env).value))
    decreases |exs|
  {
    if exs != [] {
      var init := exs[..|exs| - 1];
      ScoreMeaning(ev, env, init);
      assert forall k :: 0 <= k < |init| ==> init[k] == exs[k];
    }
  }

  /** A failure in the first expects is the failure of the scoring. */
  lemma {:induction false} ScoreFailEarly(ev: Evaluator, env: Env, exs: seq<string>, j: nat)
    requires j <= |exs| && ScoreExpects(ev, env, exs[..j]).Err?
    ensures ScoreExpects(ev, env, exs) == ScoreExpects(ev, env, exs[..j])
    decreases |exs|
  {
    if j < |exs| {
      assert exs[..|exs| - 1][..j] == exs[..j];
      ScoreFailEarly(ev, env, exs[..|exs| - 1], j);
    } else {
      assert exs[..j] == exs;
    }
  }

  /** A failure among the first outcomes is the failure of the tally. */
  lemma {:induction false} TallyFailEarly(os: seq<Result<TestOutcome>>, j: nat)
    requires j <= |os| && TallyOf(os[..j]).Err?
    ensures TallyOf(os) == TallyOf(os[..j])
    decreases |os|
  {
    if j < |os| {
      assert os[..|os| - 1][..j] == os[..j];
      TallyFailEarly(os[..|os| - 1], j);
    } else {
      assert os[..j] == os;
    }
  }

  /** One turn of run's test loop: the tally of the outcomes of the first
      j tests and the outcome of test j give the tally of the first j + 1
      tests, or, for a failed outcome, the result of the whole run. */
  lemma TallyStep(all: seq<Result<TestOutcome>>, j: nat, t: Tally)
    requires j < |all| && TallyOf(all[..j]) == Ok(t)
    ensures TallyOf(all[..j + 1]) == Then(Ok(t), all[j])
    ensures all[j].Err? ==> TallyOf(all) == Err(all[j].error)
  {
    var next := all[..j + 1];
    assert next[..j] == all[..j] && next[j] == all[j];
    if all[j].Err? {
      TallyFailEarly(all, j + 1);
    }
  }

  /** The outcome at index j is the outcome of test j. */
  lemma {:induction false} OutcomeAt(ev: Evaluator, rules: seq<RuleDef>, tests: seq<TestCase>, j: nat)
    requires j < |tests|
    ensures Outcomes(ev, rules, tests)[j] == RunTest(ev, rules, tests[j])
    decreases |tests|
  {
    if j < |tests| - 1 {
      OutcomeAt(ev, rules, tests[..|tests| - 1], j);
    }
  }

  /** The outcomes of a + b are those of a followed by those of b. */
  lemma {:induction false} OutcomesConcat(ev: Evaluator, rules: seq<RuleDef>, a: seq<TestCase>, b: seq<TestCase>)
    ensures Outcomes(ev, rules, a + b) == Outcomes(ev, rules, a) + Outcomes(ev, rules, b)
    decreases |b|
  {
    if b == [] {
      assert a + b == a;
    } else {
      assert (a + b)[..|a + b| - 1] == a + b[..|b| - 1];
      OutcomesConcat(ev, rules, a, b[..|b| - 1]);
    }
  }

  /** The run of the tests a + b, pieced together from the runs of a and of
      b: lines concatenated and counts added. */
  function Combine(x: Result<Tally>, y: Result<Tally>): Result<Tally>
  {
    match x
    case Err(e) => Err(e)
    case Ok(p) =>
      match y
      case Err(e) => Err(e)
      case Ok(q) => Ok(Tally(p.lines + q.lines, p.passed + q.passed, p.failed + q.failed))
  }

  lemma ThenCombine(x: Result<Tally>, y: Result<Tally>, o: Result<TestOutcome>)
    ensures Then(Combine(x, y), o) == Combine(x, Then(y, o))
  {
    if x.Ok? && y.Ok? && o.Ok? {
      assert x.value.lines + y.value.lines + o.value.lines == x.value.lines + (y.value.lines + o.value.lines);
    }
  }

  /** The tally of os + ps, pieced together from the tallies of os and ps. */
  lemma {:induction false} TallyConcat(os: seq<Result<TestOutcome>>, ps: seq<Result<TestOutcome>>)
    ensures TallyOf(os + ps) == Combine(TallyOf(os), TallyOf(ps))
    decreases |ps|
  {
    if ps == [] {
      assert os + ps == os;
      if TallyOf(os).Ok? {
        assert TallyOf(os).value.lines + [] == TallyOf(os).value.lines;
      }
    } else {
      var init, last := ps[..|ps| - 1], ps[|ps| - 1];
      assert (os + ps)[..|os + ps| - 1] == os + init;
      TallyConcat(os, init);
      ThenCombine(TallyOf(os), TallyOf(init), last);
    }
  }

  /** Tests are independent: each starts from an empty environment, so
      running a + b is running a and running b. */
  lemma TestsIndependent(ev: Evaluator, rules: seq<RuleDef>, a: seq<TestCase>, b: seq<TestCase>)
    ensures RunTests(ev, rules, a + b) == Combine(RunTests(ev, rules, a), RunTests(ev, rules, b))
  {
    OutcomesConcat(ev, rules, a, b);
    TallyConcat(Outcomes(ev, rules, a), Outcomes(ev, rules, b));
  }

  /** A test's verdict: after its name, the lines of the rules applied and of
      its expects, it passes exactly when every expect is truthy in the
      environment the rules left. */
  lemma TestVerdict(ev: Evaluator, rules: seq<RuleDef>, tc: TestCase)
    ensures RunTest(ev, rules, tc).Ok? ==>
      var env := LoadGivens(ev, map[], tc.givens).value;
      var st := ApplyRules(ev, RuleState(env, {}, []), rules).value;
      var o := RunTest(ev, rules, tc).value;
      && o.lines[0] == Title(tc.name)
      && o.lines[|o.lines| - 1] == Verdict(o.pass)
      && (o.pass <==> forall k :: 0 <= k < |tc.expects| ==> ev(tc.expects[k], st.env).Ok? && Truthy(ev(tc.expects[k], st.env).value))
  {
    if RunTest(ev, rules, tc).Ok? {
      var env := LoadGivens(ev, map[], tc.givens).value;
      var st := ApplyRules(ev, RuleState(env, {}, []), rules).value;
      ScoreMeaning(ev, st.env, tc.expects);
    }
  }

  /** Within a test no target is set twice and, with plain targets, every
      applied rule's reported value is what its target holds when the
      expects are evaluated. */
  lemma TestRules(ev: Evaluator, rules: seq<RuleDef>, env: Env)
    requires forall k :: 0 <= k < |rules| ==> PlainTarget(rules[k])
    ensures ApplyRules(ev, RuleState(env, {}, []), rules).Ok? ==>
      Distinct(ApplyRules(ev, RuleState(env, {}, []), rules).value) && Kept(ApplyRules(ev, RuleState(env, {}, []), rules).value)
  {
    AppliedTargetsDistinct(ev, RuleState(env, {}, []), rules);
    FirstRuleWins(ev, RuleState(env, {}, []), rules);
  }

  /** The report: a header, then the no-tests line when the program has no
      test, otherwise the tests' lines and a summary that counts every test
      once. */
  lemma RunReport(ev: Evaluator, p: Node)
    ensures RunWith(ev, p).Ok? ==> |RunWith(ev, p).value| >= 2 && RunWith(ev, p).value[0] == Header
    ensures TestsOf(p.children) == [] ==> RunWith(ev, p) == Ok([Header, NoTests])
    ensures TestsOf(p.children) != [] && RunWith(ev, p).Ok? ==>
      var last := RunWith(ev, p).value[|RunWith(ev, p).value| - 1];
      last.Summary? && last.passed + last.failed == |TestsOf(p.children)|
  {
  }
}
