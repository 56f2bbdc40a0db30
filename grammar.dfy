/** What the structural parser (Parser.parseProgram) computes, as functions
    of the token list and a cursor. Keywords and delimiters are recognised by
    their exact lexeme, whatever the token's kind; the texts of conditions,
    values, givens and expects are the lexemes of their tokens joined by
    spaces. */
module Grammar {
  import opened Text
  import opened Tokens
  import opened Ast

  /** The token lists the parser is given: the scanner's output always ends
      with an EOF token whose lexeme is empty, so the cursor never runs past
      the end. */
  predicate Terminated(toks: seq<Token>) {
    |toks| > 0 && toks[|toks| - 1].ttype == EOF && toks[|toks| - 1].lexeme == ""
  }

  /** The token lists the parser works on. */
  type TokenList = toks: seq<Token> | Terminated(toks) witness [Token(EOF, "", 0, 0)]

  /** A parsed node and the index of the first token after it. */
  datatype Parsed = Parsed(node: Node, next: nat)

  /** The tokens a text span stops at: NEWLINE, EOF and, when given, the
      keyword (readUntilKeyword / readUntilLineEnd). */
  predicate StopsAt(t: Token, kw: Option<string>) {
    t.ttype == NEWLINE || t.ttype == EOF || (kw.Some? && t.lexeme == kw.value)
  }

  /** Appends a lexeme to the text read so far, with a space before it only
      when the text is not empty. */
  function Append(acc: string, lexeme: string): string {
    if |acc| > 0 then acc + " " + lexeme else lexeme
  }

  /** The reading loop of readUntilKeyword / readUntilLineEnd from i, with
      the text read so far: the text when the loop stops and the index of the
      stopping token. */
  function ReadFrom(toks: seq<Token>, i: nat, kw: Option<string>, acc: string): (r: (string, nat))
    requires Terminated(toks) && i < |toks|
    ensures i <= r.1 < |toks| && StopsAt(toks[r.1], kw)
    decreases |toks| - i
  {
    if StopsAt(toks[i], kw) then (acc, i) else ReadFrom(toks, i + 1, kw, Append(acc, toks[i].lexeme))
  }

  /** readUntilKeyword / readUntilLineEnd from i. */
  function ReadUntil(toks: seq<Token>, i: nat, kw: Option<string>): (r: (string, nat))
    requires Terminated(toks) && i < |toks|
    ensures i <= r.1 < |toks| && StopsAt(toks[r.1], kw)
  {
    ReadFrom(toks, i, kw, "")
  }

  /** The index after any NEWLINE tokens at i (while (consumeIf(NEWLINE))). */
  function SkipNewlines(toks: seq<Token>, i: nat): (j: nat)
    requires Terminated(toks) && i < |toks|
    ensures i <= j < |toks| && toks[j].ttype != NEWLINE
    decreases |toks| - i
  {
    if toks[i].ttype == NEWLINE then SkipNewlines(toks, i + 1) else i
  }

  /** Every token skipped is a NEWLINE. */
  lemma {:induction false} SkippedAreNewlines(toks: seq<Token>, i: nat)
    requires Terminated(toks) && i < |toks|
    ensures forall k :: i <= k < SkipNewlines(toks, i) ==> toks[k].ttype == NEWLINE
    decreases |toks| - i
  {
    if toks[i].ttype == NEWLINE {
      SkippedAreNewlines(toks, i + 1);
    }
  }

  /** The index after one optional NEWLINE at i (consumeIf(NEWLINE)). */
  function SkipNewline(toks: seq<Token>, i: nat): (j: nat)
    requires Terminated(toks) && i < |toks|
    ensures j < |toks| && j == (if toks[i].ttype == NEWLINE then i + 1 else i)
  {
    if toks[i].ttype == NEWLINE then i + 1 else i
  }

  /** stripQuotes: removes one pair of surrounding double quotes. */
  function StripQuotes(s: string): (r: string)
  {
    if |s| >= 2 && s[0] == '"' && s[|s| - 1] == '"' then s[1..|s| - 1] else s
  }

  /** parseGiven and parseExpect: the keyword, then the rest of the line as
      the node's text, and an optional NEWLINE. */
  function ParseLine(toks: seq<Token>, i: nat, kind: Kind, kw: string, what: Expected): (r: Result<Parsed>)
    requires Terminated(toks) && i < |toks| && kw != ""
    ensures r.Ok? ==> i < r.value.next < |toks|
  {
    var start := toks[i];
    if start.lexeme != kw then Err(ParseError(what, start))
    else Ok(LineRest(toks, kind, start, i + 1))
  }

  /** The rest of a given or expect line from j: a leaf at the keyword
      token holding the text up to the line end, then an optional NEWLINE. */
  function LineRest(toks: seq<Token>, kind: Kind, start: Token, j: nat): (p: Parsed)
    requires Terminated(toks) && j < |toks|
    ensures j <= p.next < |toks|
  {
    var (text, e) := ReadUntil(toks, j, None);
    Parsed(Node(kind, text, start.line, start.col, []), SkipNewline(toks, e))
  }

  function ParseGiven(toks: seq<Token>, i: nat): (r: Result<Parsed>)
    requires Terminated(toks) && i < |toks|
    ensures r.Ok? ==> i < r.value.next < |toks|
  {
    ParseLine(toks, i, Given, "given", KeywordGiven)
  }

  function ParseExpect(toks: seq<Token>, i: nat): (r: Result<Parsed>)
    requires Terminated(toks) && i < |toks|
    ensures r.Ok? ==> i < r.value.next < |toks|
  {
    ParseLine(toks, i, Expect, "expect", KeywordExpect)
  }

  /** What parseRule reads before building nodes: the 'rule' token, the
      name token, the condition text, the target token, the value text, and
      the index after the rule (after its optional NEWLINE). */
  datatype RuleParts = RuleParts(start: Token, name: Token, cond: string, target: Token, value: string, next: nat)

  /** What the first part of parseRule reads: the 'rule' token, the name
      token, the condition text and the index after 'then'. */
  datatype RuleStart = RuleStart(start: Token, name: Token, cond: string, next: nat)

  /** The first part of parseRule: rule STRING when <condition> then. */
  function RuleOpening(toks: seq<Token>, i: nat): (r: Result<RuleStart>)
    requires Terminated(toks) && i < |toks|
    ensures r.Ok? ==> i < r.value.next < |toks|
  {
    var start := toks[i];
    if start.lexeme != "rule" then Err(ParseError(KeywordRule, start))
    else if toks[i + 1].ttype != STRING then Err(ParseError(RuleName, toks[i + 1]))
    else if toks[i + 2].lexeme != "when" then Err(ParseError(KeywordWhen, toks[i + 2]))
    else RuleCondition(toks, start, toks[i + 1], i + 3)
  }

  /** The condition of a rule: the text read from j up to the keyword 'then',
      which must follow. */
  function RuleCondition(toks: seq<Token>, start: Token, name: Token, j: nat): (r: Result<RuleStart>)
    requires Terminated(toks) && j < |toks|
    ensures r.Ok? ==> j < r.value.next < |toks|
  {
    var (cond, th) := ReadUntil(toks, j, Some("then"));
    if toks[th].lexeme != "then" then Err(ParseError(KeywordThen, toks[th]))
    else Ok(RuleStart(start, name, cond, th + 1))
  }

  /** The reading half of parseRule: the opening, then the assignment. */
  function RuleHeader(toks: seq<Token>, i: nat): (r: Result<RuleParts>)
    requires Terminated(toks) && i < |toks|
    ensures r.Ok? ==> i < r.value.next < |toks|
  {
    match RuleOpening(toks, i)
    case Err(e) => Err(e)
    case Ok(o) => RuleAssignment(toks, o)
  }

  /** IDENT = <value> after 'then', and an optional NEWLINE. */
  function RuleAssignment(toks: seq<Token>, o: RuleStart): (r: Result<RuleParts>)
    requires Terminated(toks) && o.next < |toks|
    ensures r.Ok? ==> o.next < r.value.next < |toks|
  {
    var j := o.next;
    if toks[j].ttype != IDENT then Err(ParseError(TargetName, toks[j]))
    else if toks[j + 1].lexeme != "=" then Err(ParseError(AssignSign, toks[j + 1]))
    else Ok(RuleValue(toks, o, toks[j], j + 2))
  }

  /** The value of the assignment: the rest of the line from k, and the index
      after it and an optional NEWLINE. */
  function RuleValue(toks: seq<Token>, o: RuleStart, target: Token, k: nat): (p: RuleParts)
    requires Terminated(toks) && k < |toks|
    ensures k <= p.next < |toks|
  {
    var (value, e) := ReadUntil(toks, k, None);
    RuleParts(o.start, o.name, o.cond, target, value, SkipNewline(toks, e))
  }

  /** The building half of parseRule: Rule(When, Set(Target, Value)); every
      node but Target sits at the 'rule' token, Target at the target token. */
  function RuleNode(p: RuleParts): Node
  {
    var (line, col) := (p.start.line, p.start.col);
    Node(Rule, StripQuotes(p.name.lexeme), line, col,
      [ Node(When, p.cond, line, col, []),
        Node(Set, "", line, col,
          [ Node(Target, p.target.lexeme, p.target.line, p.target.col, []),
            Node(Value, p.value, line, col, []) ]) ])
  }

  /** parseRule. */
  function ParseRule(toks: seq<Token>, i: nat): (r: Result<Parsed>)
    requires Terminated(toks) && i < |toks|
    ensures r.Ok? ==> i < r.value.next < |toks|
  {
    match RuleHeader(toks, i)
    case Err(e) => Err(e)
    case Ok(p) => Ok(Parsed(RuleNode(p), p.next))
  }

  /** A test body read: its nodes and the index of the closing '}'. */
  datatype Body = Body(items: seq<Node>, close: nat)

  /** The opening of a test: the 'test' token, the name token and the index
      where the body starts. */
  datatype Opening = Opening(start: Token, name: Token, body: nat)

  /** The loop of parseTest from i, with the nodes read so far: given and
      expect lines and blank NEWLINEs up to the '}' lexeme, whose index it
      gives. Anything else, EOF included, is an error at that token. */
  function TestBody(toks: seq<Token>, i: nat, acc: seq<Node>): (r: Result<Body>)
    requires Terminated(toks) && i < |toks|
    ensures r.Ok? ==> i <= r.value.close < |toks| && toks[r.value.close].lexeme == "}"
    decreases |toks| - i
  {
    var t := toks[i];
    if t.lexeme == "}" then Ok(Body(acc, i))
    else if t.lexeme == "given" then
      match ParseGiven(toks, i)
      case Err(e) => Err(e)
      case Ok(p) => TestBody(toks, p.next, acc + [p.node])
    else if t.lexeme == "expect" then
      match ParseExpect(toks, i)
      case Err(e) => Err(e)
      case Ok(p) => TestBody(toks, p.next, acc + [p.node])
    else if t.ttype == NEWLINE then TestBody(toks, i + 1, acc)
    else Err(ParseError(GivenOrExpect, t))
  }

  /** The opening of parseTest: test STRING { and any blank lines; gives
      the 'test' token, the name token and the index where the body starts. */
  function TestHeader(toks: seq<Token>, i: nat): (r: Result<Opening>)
    requires Terminated(toks) && i < |toks|
    ensures r.Ok? ==> i < r.value.body < |toks|
  {
    var start := toks[i];
    if start.lexeme != "test" then Err(ParseError(KeywordTest, start))
    else if toks[i + 1].ttype != STRING then Err(ParseError(TestName, toks[i + 1]))
    else if toks[i + 2].lexeme != "{" then Err(ParseError(OpenBrace, toks[i + 2]))
    else Ok(Opening(start, toks[i + 1], SkipNewlines(toks, i + 3)))
  }

  /** The test node made of an opening and a body read, with the index
      after the '}' and an optional NEWLINE. */
  function TestResult(toks: seq<Token>, h: Opening, b: Result<Body>): (r: Result<Parsed>)
    requires Terminated(toks)
    requires b.Ok? ==> b.value.close < |toks| && toks[b.value.close].lexeme == "}"
  {
    match b
    case Err(e) => Err(e)
    case Ok(x) => Ok(Parsed(Node(Test, StripQuotes(h.name.lexeme), h.start.line, h.start.col, x.items), SkipNewline(toks, x.close + 1)))
  }

  /** parseTest: the opening, the body up to '}', the '}' and an optional
      NEWLINE. */
  function ParseTest(toks: seq<Token>, i: nat): (r: Result<Parsed>)
    requires Terminated(toks) && i < |toks|
    ensures r.Ok? ==> i < r.value.next < |toks|
  {
    match TestHeader(toks, i)
    case Err(e) => Err(e)
    case Ok(h) => TestResult(toks, h, TestBody(toks, h.body, []))
  }

  /** One item of parseProgram at j: a rule or a test, chosen by the lexeme
      'rule' or 'test'; anything else is an error at that token. */
  function ParseItem(toks: seq<Token>, j: nat): (r: Result<Parsed>)
    requires Terminated(toks) && j < |toks|
    ensures r.Ok? ==> j < r.value.next < |toks|
  {
    if toks[j].lexeme == "rule" then ParseRule(toks, j)
    else if toks[j].lexeme == "test" then ParseTest(toks, j)
    else Err(ParseError(RuleOrTest, toks[j]))
  }

  /** The loop of parseProgram from i, with the items read so far: blank
      NEWLINEs are skipped, EOF ends the program, anything else is an item. */
  function ProgramItems(toks: seq<Token>, i: nat, acc: seq<Node>): Result<seq<Node>>
    requires Terminated(toks) && i < |toks|
    decreases |toks| - i
  {
    if toks[i].ttype == EOF then Ok(acc)
    else
      var j := SkipNewlines(toks, i);
      if toks[j].ttype == EOF then Ok(acc)
      else
        match ParseItem(toks, j)
        case Err(e) => Err(e)
        case Ok(p) => ProgramItems(toks, p.next, acc + [p.node])
  }

  /** parseProgram: a Program node at the first token holding the items. */
  function ParseProgram(toks: seq<Token>): Result<Node>
    requires Terminated(toks)
  {
    match ProgramItems(toks, 0, [])
    case Err(e) => Err(e)
    case Ok(items) => Ok(Node(Program, "", toks[0].line, toks[0].col, items))
  }
}
