/** The two actions of the controller that go through the whole language:
    parse (tokenize, then parseProgram) and run tests (tokenize, then
    parseProgram, then Evaluator.run). A failure of any stage is the
    result; the view it is shown in is not part of this model. */
module Pipeline {
  import opened Text
  import opened Tokens
  import opened Lexer
  import opened LexerFacts
  import opened Ast
  import opened Grammar
  import opened GrammarFacts
  import opened TestRun
  import opened TestRunFacts
  import Expressions
  import Scanning
  import Parsing
  import Running

  /** parse: the source tokenized with the Tokenizer's column rule and the
      token list parsed into a Program tree. */
  function ParseSource(src: string): Result<Node>
  {
    match Lex(src, AfterOperator)
    case Err(e) => Err(e)
    case Ok(toks) =>
      LexEndsWithEof(src, AfterOperator);
      ParseProgram(toks)
  }

  /** runTests: the parsed program run. */
  function RunSource(src: string): Result<seq<Line>>
  {
    match ParseSource(src)
    case Err(e) => Err(e)
    case Ok(program) => Run(program)
  }

  /** A parsed source is a Program whose items are rules and tests of the
      shapes parseRule and parseTest build, every item one rule or one test;
      a scanning failure is the result of parsing. */
  lemma ParsedProgram(src: string)
    ensures Lex(src, AfterOperator).Err? ==> ParseSource(src) == Err(Lex(src, AfterOperator).error)
    ensures ParseSource(src).Ok? ==>
      var p := ParseSource(src).value;
      && ProgramShaped(p)
      && |RulesOf(p.children)| + |TestsOf(p.children)| == |p.children|
  {
    if Lex(src, AfterOperator).Ok? {
      var toks := Lex(src, AfterOperator).value;
      LexEndsWithEof(src, AfterOperator);
      ParseProgramShape(toks);
      if ParseProgram(toks).Ok? {
        ProgramReadWhole(ParseProgram(toks).value);
      }
    }
  }

  /** The report of a run: a failure to tokenize or parse is the result;
      otherwise the header first, the no-tests line when the program has no
      test, and else a summary whose counts add up to the number of tests
      in the source. */
  lemma RunSourceReport(src: string)
    ensures ParseSource(src).Err? ==> RunSource(src) == Err(ParseSource(src).error)
    ensures RunSource(src).Ok? ==>
      && ParseSource(src).Ok?
      && |RunSource(src).value| >= 2 && RunSource(src).value[0] == Header
    ensures ParseSource(src).Ok? && TestsOf(ParseSource(src).value.children) == [] ==>
      RunSource(src) == Ok([Header, NoTests])
    ensures RunSource(src).Ok? && TestsOf(ParseSource(src).value.children) != [] ==>
      var out := RunSource(src).value;
      out[|out| - 1].Summary?
      && out[|out| - 1].passed + out[|out| - 1].failed == |TestsOf(ParseSource(src).value.children)|
  {
    if ParseSource(src).Ok? {
      RunReport(Expressions.EvalExpr, ParseSource(src).value);
    }
  }

  /** runTests as the controller writes it: a Tokenizer over the source
      (null read as empty), a Parser over its tokens, then run. */
  method RunTests(source: Option<string>) returns (r: Result<seq<Line>>)
    ensures r == RunSource(SourceText(source))
  {
    var toks :- Scanning.TokenizeSource(source, AfterOperator);
    LexEndsWithEof(SourceText(source), AfterOperator);
    var p := new Parsing.Parser(toks);
    var program :- p.ParseProgram();
    r := Running.Run(program);
  }
}
