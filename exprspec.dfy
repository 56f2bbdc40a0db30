/** What the expression evaluator (Evaluator.ExprEval) computes, as
    functions of the cleaned token list, the environment and a cursor: one
    function per precedence level, each giving the value read and the index
    of the first token after it, or the failure the evaluator throws. */
module Expressions {
  import opened Text
  import opened Tokens
  import opened Lexer
  import opened LexerFacts
  import opened Grammar
  import opened Values
  import opened Environment

  /** A value read and the index of the first token after it. */
  datatype Eval = Eval(v: Value, next: nat)

  /** A dotted name read and the index of the first token after it. */
  datatype PathRead = PathRead(path: string, next: nat)

  /** Integer.MAX_VALUE: the largest literal Integer.parseInt accepts. */
  const IntMax: int := 2147483647

  /** The value of a NUMBER lexeme: Double.parseDouble when it holds a '.',
      Integer.parseInt otherwise. None stands for the NumberFormatException,
      which for the scanner's lexemes is an integer above Integer.MAX_VALUE. */
  function NumberLiteral(lexeme: string): (r: Option<Value>)
    ensures '.' !in lexeme && lexeme != "" && AllDigits(lexeme) ==>
      (r.Some? <==> DigitsValue(lexeme) <= IntMax) && (r.Some? ==> r.value == VInt(DigitsValue(lexeme)))
    ensures '.' in lexeme ==> r.Some? ==> r.value.VDbl?
  {
    if '.' in lexeme then
      match ParseDouble(lexeme)
      case Some(d) => Some(VDbl(d))
      case None => None
    else if lexeme != "" && AllDigits(lexeme) && DigitsValue(lexeme) <= IntMax then Some(VInt(DigitsValue(lexeme)))
    else None
  }

  /** The comparison operators of cmp. */
  predicate IsRelation(tt: TokenType) {
    tt == EQEQ || tt == NE || tt == GE || tt == LE || tt == GT || tt == LT
  }

  /** The Boolean a comparison yields: Objects.equals for == and !=, the sign
      of compare for the orderings. */
  function Relate(op: TokenType, a: Value, b: Value): (r: Value)
    requires IsRelation(op)
    ensures r.VBool?
  {
    match op
    case EQEQ => VBool(a == b)
    case NE => VBool(a != b)
    case GE => VBool(Compare(a, b) >= 0)
    case LE => VBool(Compare(a, b) <= 0)
    case GT => VBool(Compare(a, b) > 0)
    case LT => VBool(Compare(a, b) < 0)
  }

  /** The additive operators of add and the multiplicative ones of mul. */
  predicate IsSum(tt: TokenType) {
    tt == PLUS || tt == MINUS
  }

  predicate IsProduct(tt: TokenType) {
    tt == STAR || tt == SLASH
  }

  /** The Double an arithmetic operator yields from the operands' num. */
  function Arith(op: TokenType, a: Value, b: Value): (r: Value)
    requires IsSum(op) || IsProduct(op)
    ensures r.VDbl?
  {
    match op
    case PLUS => VDbl(Values.Add(Num(a), Num(b)))
    case MINUS => VDbl(Sub(Num(a), Num(b)))
    case STAR => VDbl(Values.Mul(Num(a), Num(b)))
    case SLASH => VDbl(Div(Num(a), Num(b)))
  }

  // ----- the precedence levels -----

  /** or: and (OR and)*. */
  function Or(t: TokenList, env: Env, i: nat): (r: Result<Eval>)
    requires i < |t|
    ensures r.Ok? ==> i < r.value.next < |t|
    decreases |t| - i, 7
  {
    match And(t, env, i)
    case Err(e) => Err(e)
    case Ok(l) => OrRest(t, env, l.v, l.next)
  }

  /** The loop of or, with the value read so far: both operands are always
      evaluated and the result is the Boolean of their truthiness. */
  function OrRest(t: TokenList, env: Env, left: Value, i: nat): (r: Result<Eval>)
    requires i < |t|
    ensures r.Ok? ==> i <= r.value.next < |t|
    decreases |t| - i, 0
  {
    if t[i].ttype != OR then Ok(Eval(left, i))
    else
      match And(t, env, i + 1)
      case Err(e) => Err(e)
      case Ok(rt) => OrRest(t, env, VBool(Truthy(left) || Truthy(rt.v)), rt.next)
  }

  /** and: cmp (AND cmp)*. */
  function And(t: TokenList, env: Env, i: nat): (r: Result<Eval>)
    requires i < |t|
    ensures r.Ok? ==> i < r.value.next < |t|
    decreases |t| - i, 6
  {
    match Cmp(t, env, i)
    case Err(e) => Err(e)
    case Ok(l) => AndRest(t, env, l.v, l.next)
  }

  function AndRest(t: TokenList, env: Env, left: Value, i: nat): (r: Result<Eval>)
    requires i < |t|
    ensures r.Ok? ==> i <= r.value.next < |t|
    decreases |t| - i, 0
  {
    if t[i].ttype != AND then Ok(Eval(left, i))
    else
      match Cmp(t, env, i + 1)
      case Err(e) => Err(e)
      case Ok(rt) => AndRest(t, env, VBool(Truthy(left) && Truthy(rt.v)), rt.next)
  }

  /** cmp: add ((== | != | >= | <= | > | <) add)*, left-associative. */
  function Cmp(t: TokenList, env: Env, i: nat): (r: Result<Eval>)
    requires i < |t|
    ensures r.Ok? ==> i < r.value.next < |t|
    decreases |t| - i, 5
  {
    match Sum(t, env, i)
    case Err(e) => Err(e)
    case Ok(l) => CmpRest(t, env, l.v, l.next)
  }

  function CmpRest(t: TokenList, env: Env, left: Value, i: nat): (r: Result<Eval>)
    requires i < |t|
    ensures r.Ok? ==> i <= r.value.next < |t|
    decreases |t| - i, 0
  {
    if !IsRelation(t[i].ttype) then Ok(Eval(left, i))
    else
      match Sum(t, env, i + 1)
      case Err(e) => Err(e)
      case Ok(rt) => CmpRest(t, env, Relate(t[i].ttype, left, rt.v), rt.next)
  }

  /** add: mul ((+ | -) mul)*. */
  function Sum(t: TokenList, env: Env, i: nat): (r: Result<Eval>)
    requires i < |t|
    ensures r.Ok? ==> i < r.value.next < |t|
    decreases |t| - i, 4
  {
    match Product(t, env, i)
    case Err(e) => Err(e)
    case Ok(l) => SumRest(t, env, l.v, l.next)
  }

  function SumRest(t: TokenList, env: Env, left: Value, i: nat): (r: Result<Eval>)
    requires i < |t|
    ensures r.Ok? ==> i <= r.value.next < |t|
    decreases |t| - i, 0
  {
    if !IsSum(t[i].ttype) then Ok(Eval(left, i))
    else
      match Product(t, env, i + 1)
      case Err(e) => Err(e)
      case Ok(rt) => SumRest(t, env, Arith(t[i].ttype, left, rt.v), rt.next)
  }

  /** mul: unary ((* | /) unary)*. */
  function Product(t: TokenList, env: Env, i: nat): (r: Result<Eval>)
    requires i < |t|
    ensures r.Ok? ==> i < r.value.next < |t|
    decreases |t| - i, 3
  {
    match Unary(t, env, i)
    case Err(e) => Err(e)
    case Ok(l) => ProductRest(t, env, l.v, l.next)
  }

  function ProductRest(t: TokenList, env: Env, left: Value, i: nat): (r: Result<Eval>)
    requires i < |t|
    ensures r.Ok? ==> i <= r.value.next < |t|
    decreases |t| - i, 0
  {
    if !IsProduct(t[i].ttype) then Ok(Eval(left, i))
    else
      match Unary(t, env, i + 1)
      case Err(e) => Err(e)
      case Ok(rt) => ProductRest(t, env, Arith(t[i].ttype, left, rt.v), rt.next)
  }

  /** unary: NOT unary | MINUS unary | primary. */
  function Unary(t: TokenList, env: Env, i: nat): (r: Result<Eval>)
    requires i < |t|
    ensures r.Ok? ==> i < r.value.next < |t|
    decreases |t| - i, 2
  {
    if t[i].ttype == NOT then
      match Unary(t, env, i + 1)
      case Err(e) => Err(e)
      case Ok(u) => Ok(Eval(VBool(!Truthy(u.v)), u.next))
    else if t[i].ttype == MINUS then
      match Unary(t, env, i + 1)
      case Err(e) => Err(e)
      case Ok(u) => Ok(Eval(VDbl(Neg(Num(u.v))), u.next))
    else Primary(t, env, i)
  }

  /** The literal cases at the head of primary: the value of a literal
      token, or the failure reading it; None when the token is no literal. */
  function LiteralOf(tk: Token): (r: Option<Result<Value>>)
    ensures r.Some? <==> tk.ttype in {NUMBER, STRING, TRUE, FALSE, NULL, UNDEFINED}
    ensures r.Some? && r.value.Err? ==> tk.ttype == NUMBER
  {
    if tk.ttype == NUMBER then
      match NumberLiteral(tk.lexeme)
      case Some(v) => Some(Ok(v))
      case None => Some(Err(EvalError(NumberFormat, tk)))
    else if tk.ttype == STRING then Some(Ok(VStr(tk.lexeme)))
    else if tk.ttype == TRUE then Some(Ok(VBool(true)))
    else if tk.ttype == FALSE then Some(Ok(VBool(false)))
    else if tk.ttype == NULL || tk.ttype == UNDEFINED then Some(Ok(VNull))
    else None
  }

  /** primary: a literal, a parenthesised expression or a dotted name looked
      up in the environment; any other token is an invalid expression. */
  function Primary(t: TokenList, env: Env, i: nat): (r: Result<Eval>)
    requires i < |t|
    ensures r.Ok? ==> i < r.value.next < |t|
    decreases |t| - i, 1
  {
    var tk := t[i];
    match LiteralOf(tk)
    case Some(Ok(v)) => Ok(Eval(v, i + 1))
    case Some(Err(e)) => Err(e)
    case None =>
      if tk.ttype == LPAREN then Group(t, env, i + 1)
      else if tk.ttype == IDENT then
        match PathFrom(t, i + 1, tk.lexeme)
        case Err(e) => Err(e)
        case Ok(p) => Ok(Eval(Lookup(env, p.path), p.next))
      else Err(EvalError(InvalidExpression, tk))
  }

  /** The rest of a parenthesised expression, after its '('. */
  function Group(t: TokenList, env: Env, i: nat): (r: Result<Eval>)
    requires 0 < i < |t|
    ensures r.Ok? ==> i < r.value.next < |t|
    decreases |t| - i, 8
  {
    match Or(t, env, i)
    case Err(e) => Err(e)
    case Ok(inner) =>
      if t[inner.next].ttype == RPAREN then Ok(Eval(inner.v, inner.next + 1))
      else Err(EvalError(MissingRParen, t[inner.next]))
  }

  /** The (DOT IDENT)* loop of primary, with the name read so far. */
  function PathFrom(t: TokenList, i: nat, name: string): (r: Result<PathRead>)
    requires i < |t|
    ensures r.Ok? ==> i <= r.value.next < |t| && t[r.value.next].ttype != DOT
    decreases |t| - i
  {
    if t[i].ttype != DOT then Ok(PathRead(name, i))
    else if t[i + 1].ttype != IDENT then Err(EvalError(IdentAfterDot, t[i + 1]))
    else PathFrom(t, i + 2, name + "." + t[i + 1].lexeme)
  }

  /** parse: an or-expression, which must reach the EOF token. */
  function Parse(t: TokenList, env: Env): Result<Value>
  {
    match Or(t, env, 0)
    case Err(e) => Err(e)
    case Ok(r) =>
      if t[r.next].ttype == EOF then Ok(r.v) else Err(EvalError(EofExpected, t[r.next]))
  }

  /** The tokens with the NEWLINE tokens dropped. */
  function WithoutNewlines(ts: seq<Token>): (r: seq<Token>)
    ensures forall k :: 0 <= k < |r| ==> r[k].ttype != NEWLINE
    ensures |r| <= |ts|
    ensures forall k :: 0 <= k < |r| ==> r[k] in ts
    ensures ts != [] && ts[|ts| - 1].ttype != NEWLINE ==> r != [] && r[|r| - 1] == ts[|ts| - 1]
  {
    if ts == [] then []
    else if ts[|ts| - 1].ttype == NEWLINE then WithoutNewlines(ts[..|ts| - 1])
    else WithoutNewlines(ts[..|ts| - 1]) + [ts[|ts| - 1]]
  }

  /** A token list whose only EOF token is the last one. */
  predicate EofOnlyAtEnd(t: seq<Token>) {
    forall k :: 0 <= k < |t| - 1 ==> t[k].ttype != EOF
  }

  /** Dropping the NEWLINE tokens keeps a scanner output's EOF token last and
      alone. */
  lemma CleanedEofOnlyAtEnd(ts: seq<Token>)
    requires ts != [] && ts[|ts| - 1].ttype == EOF && EofOnlyAtEnd(ts)
    ensures EofOnlyAtEnd(WithoutNewlines(ts))
  {
    var r := WithoutNewlines(ts);
    var front := ts[..|ts| - 1];
    assert r == WithoutNewlines(front) + [ts[|ts| - 1]];
    forall k | 0 <= k < |r| - 1 ensures r[k].ttype != EOF {
      assert r[k] in front;
    }
  }

  /** The tokens evalExpr evaluates: the expression scanned by the Tokenizer
      with its NEWLINE tokens dropped, or the scanning error. */
  function Cleaned(expr: string): (r: Result<seq<Token>>)
    ensures r.Ok? ==> Terminated(r.value) && EofOnlyAtEnd(r.value)
    ensures r.Ok? ==> forall k :: 0 <= k < |r.value| ==> r.value[k].ttype != NEWLINE
    ensures r.Err? <==> Lex(expr, AfterOperator).Err?
  {
    match Lex(expr, AfterOperator)
    case Err(e) => Err(e)
    case Ok(ts) =>
      LexEndsWithEof(expr, AfterOperator);
      CleanedEofOnlyAtEnd(ts);
      Ok(WithoutNewlines(ts))
  }

  /** evalExpr: the cleaned tokens parsed; a scanning error is the result
      too. */
  function EvalExpr(expr: string, env: Env): Result<Value>
  {
    match Cleaned(expr)
    case Err(e) => Err(e)
    case Ok(t) => Parse(t, env)
  }
}
