/** What Evaluator.run computes, as functions of the program tree: the rules
    and tests read off the tree, and for every test a fresh environment
    loaded from its givens, the rules applied top to bottom with the first
    truthy rule winning its target, and the expects scored. The report is a
    list of structured lines rather than text. */
module TestRun {
  import opened Text
  import opened Tokens
  import opened Ast
  import opened Values
  import opened Environment
  import opened Expressions

  /** A rule as the runner sees it: name, condition, target and value text. */
  datatype RuleDef = RuleDef(name: string, condition: string, target: string, valueExpr: string)

  /** A test as the runner sees it: its name, given texts and expect texts. */
  datatype TestCase = TestCase(name: string, givens: seq<string>, expects: seq<string>)

  /** One line of the report. */
  datatype Line =
    | Header
    | NoTests
    | Title(name: string)
    | RuleApplied(rule: string, target: string, value: Value)
    | ExpectResult(expr: string, ok: bool)
    | Verdict(pass: bool)
    | Summary(passed: nat, failed: nat)

  // ----- reading the tree -----

  /** The index of the first node of the kind, or |cs| when there is none. */
  function FirstOfKind(cs: seq<Node>, k: Kind): (j: nat)
    ensures j <= |cs| && (j < |cs| ==> cs[j].kind == k)
    ensures forall i :: 0 <= i < j ==> cs[i].kind != k
  {
    if cs == [] || cs[0].kind == k then 0 else 1 + FirstOfKind(cs[1..], k)
  }

  /** child(n, kind): the first child of the kind; none below no node. */
  function Child(n: Option<Node>, k: Kind): Option<Node>
  {
    match n
    case None => None
    case Some(m) =>
      var j := FirstOfKind(m.children, k);
      if j < |m.children| then Some(m.children[j]) else None
  }

  /** childText(n, kind): that child's text, or the empty text. */
  function ChildText(n: Option<Node>, k: Kind): string
  {
    match Child(n, k)
    case None => ""
    case Some(c) => c.text
  }

  /** The rule a Rule node stands for. */
  function RuleOf(n: Node): RuleDef
  {
    var setNode := Child(Some(n), Set);
    RuleDef(n.text, ChildText(Some(n), When), ChildText(setNode, Target), ChildText(setNode, Value))
  }

  /** extractRules: the Rule nodes among cs, in order. */
  function RulesOf(cs: seq<Node>): (rs: seq<RuleDef>)
    ensures |rs| <= |cs|
  {
    if cs == [] then []
    else
      var last := cs[|cs| - 1];
      RulesOf(cs[..|cs| - 1]) + (if last.kind == Rule then [RuleOf(last)] else [])
  }

  /** The texts of the nodes of the kind among cs, in order. */
  function TextsOf(cs: seq<Node>, k: Kind): (ts: seq<string>)
    ensures |ts| <= |cs|
  {
    if cs == [] then []
    else
      var last := cs[|cs| - 1];
      TextsOf(cs[..|cs| - 1], k) + (if last.kind == k then [last.text] else [])
  }

  /** The test a Test node stands for. */
  function TestOf(n: Node): TestCase
  {
    TestCase(n.text, TextsOf(n.children, Given), TextsOf(n.children, Expect))
  }

  /** extractTests: the Test nodes among cs, in order. */
  function TestsOf(cs: seq<Node>): (ts: seq<TestCase>)
    ensures |ts| <= |cs|
  {
    if cs == [] then []
    else
      var last := cs[|cs| - 1];
      TestsOf(cs[..|cs| - 1]) + (if last.kind == Test then [TestOf(last)] else [])
  }

  /** How the runner evaluates a text in an environment: evalExpr, which
      Run passes in; the properties of the runner hold for any evaluator. */
  type Evaluator = (string, Env) -> Result<Value>

  // ----- givens -----

  /** One comma-separated part of a given: ignored when blank or without
      '='; otherwise the trimmed right-hand side is evaluated in the
      environment so far and stored at the trimmed key. */
  function LoadPart(ev: Evaluator, env: Env, part: string): Result<Env>
  {
    var s := JavaTrim(part);
    var kv := SplitFirst(s, '=');
    if s == "" || |kv| != 2 then Ok(env)
    else
      match ev(JavaTrim(kv[1]), env)
      case Err(e) => Err(e)
      case Ok(v) => PutDeep(env, JavaTrim(kv[0]), v)
  }

  /** The parts of a given, one after the other. */
  function LoadParts(ev: Evaluator, env: Env, parts: seq<string>): Result<Env>
  {
    if parts == [] then Ok(env)
    else
      match LoadParts(ev, env, parts[..|parts| - 1])
      case Err(e) => Err(e)
      case Ok(e1) => LoadPart(ev, e1, parts[|parts| - 1])
  }

  /** The givens of a test, one after the other, each split on ','. */
  function LoadGivens(ev: Evaluator, env: Env, givens: seq<string>): Result<Env>
  {
    if givens == [] then Ok(env)
    else
      match LoadGivens(ev, env, givens[..|givens| - 1])
      case Err(e) => Err(e)
      case Ok(e1) => LoadParts(ev, e1, JavaSplit(givens[|givens| - 1], ','))
  }

  // ----- rules -----

  /** The state of the rule loop: the environment, the targets assigned so
      far and the report lines of the rules applied. */
  datatype RuleState = RuleState(env: Env, done: set<string>, lines: seq<Line>)

  /** One rule: skipped, without evaluating anything, when its target is
      assigned already; otherwise applied when its condition is truthy. */
  function ApplyRule(ev: Evaluator, st: RuleState, r: RuleDef): Result<RuleState>
  {
    if r.target in st.done then Ok(st)
    else
      match ev(r.condition, st.env)
      case Err(e) => Err(e)
      case Ok(c) =>
        if !Truthy(c) then Ok(st)
        else
          match ev(r.valueExpr, st.env)
          case Err(e) => Err(e)
          case Ok(v) =>
            match PutDeep(st.env, r.target, v)
            case Err(e) => Err(e)
            case Ok(env') =>
              Ok(RuleState(env', st.done + {r.target}, st.lines + [RuleApplied(r.name, r.target, v)]))
  }

  /** The rules in program order. */
  function ApplyRules(ev: Evaluator, st: RuleState, rs: seq<RuleDef>): Result<RuleState>
  {
    if rs == [] then Ok(st)
    else
      match ApplyRules(ev, st, rs[..|rs| - 1])
      case Err(e) => Err(e)
      case Ok(s1) => ApplyRule(ev, s1, rs[|rs| - 1])
  }

  // ----- expects -----

  /** The expects scored: one line each and whether all were truthy. */
  datatype Scored = Scored(lines: seq<Line>, allOk: bool)

  function ScoreExpects(ev: Evaluator, env: Env, exs: seq<string>): (r: Result<Scored>)
    ensures r.Ok? ==> |r.value.lines| == |exs|
  {
    if exs == [] then Ok(Scored([], true))
    else
      match ScoreExpects(ev, env, exs[..|exs| - 1])
      case Err(e) => Err(e)
      case Ok(s) =>
        var ex := exs[|exs| - 1];
        match ev(ex, env)
        case Err(e) => Err(e)
        case Ok(v) => Ok(Scored(s.lines + [ExpectResult(ex, Truthy(v))], s.allOk && Truthy(v)))
  }

  // ----- tests and the run -----

  /** What running one test gives: its report lines and its verdict. */
  datatype TestOutcome = TestOutcome(lines: seq<Line>, pass: bool)

  /** One test: a fresh empty environment, the givens, the rules, the
      expects. */
  function RunTest(ev: Evaluator, rules: seq<RuleDef>, tc: TestCase): Result<TestOutcome>
  {
    match LoadGivens(ev, map[], tc.givens)
    case Err(e) => Err(e)
    case Ok(env) =>
      match ApplyRules(ev, RuleState(env, {}, []), rules)
      case Err(e) => Err(e)
      case Ok(st) =>
        match ScoreExpects(ev, st.env, tc.expects)
        case Err(e) => Err(e)
        case Ok(s) => Ok(TestOutcome([Title(tc.name)] + st.lines + s.lines + [Verdict(s.allOk)], s.allOk))
  }

  /** The lines of the tests run so far and the counts of passed and failed
      ones. */
  datatype Tally = Tally(lines: seq<Line>, passed: nat, failed: nat)

  /** One more test outcome added to the tally: its lines appended and
      one more pass or fail counted; the first failure is the result. */
  function Then(x: Result<Tally>, o: Result<TestOutcome>): Result<Tally>
  {
    match x
    case Err(e) => Err(e)
    case Ok(t) =>
      match o
      case Err(e) => Err(e)
      case Ok(out) => Ok(Tally(t.lines + out.lines, t.passed + (if out.pass then 1 else 0), t.failed + (if out.pass then 0 else 1)))
  }

  /** The tally of the outcomes in order; every outcome counts once, as
      passed or as failed. */
  function TallyOf(os: seq<Result<TestOutcome>>): (r: Result<Tally>)
    ensures r.Ok? ==> r.value.passed + r.value.failed == |os|
  {
    if os == [] then Ok(Tally([], 0, 0)) else Then(TallyOf(os[..|os| - 1]), os[|os| - 1])
  }

  /** The outcome of every test, each on its own. */
  function Outcomes(ev: Evaluator, rules: seq<RuleDef>, tests: seq<TestCase>): (os: seq<Result<TestOutcome>>)
    ensures |os| == |tests|
  {
    if tests == [] then []
    else Outcomes(ev, rules, tests[..|tests| - 1]) + [RunTest(ev, rules, tests[|tests| - 1])]
  }

  /** The tests in order, tallied. */
  function RunTests(ev: Evaluator, rules: seq<RuleDef>, tests: seq<TestCase>): Result<Tally>
  {
    TallyOf(Outcomes(ev, rules, tests))
  }

  /** run: the header, then either the no-tests line or every test followed
      by the summary; a failure anywhere is the result. */
  function RunWith(ev: Evaluator, program: Node): Result<seq<Line>>
  {
    var rules := RulesOf(program.children);
    var tests := TestsOf(program.children);
    if tests == [] then Ok([Header, NoTests])
    else
      match RunTests(ev, rules, tests)
      case Err(e) => Err(e)
      case Ok(t) => Ok([Header] + t.lines + [Summary(t.passed, t.failed)])
  }

  /** run(program), with evalExpr as the evaluator. */
  function Run(program: Node): Result<seq<Line>>
  {
    RunWith(EvalExpr, program)
  }
}
