/** The expression evaluator as the source writes it: an object with a
    cursor into the cleaned token list whose methods, one per precedence
    level, read an expression and compute its value, proved to compute the
    functions of module Expressions. */
module Evaluation {
  import opened Tokens
  import opened Lexer
  import opened LexerFacts
  import opened Grammar
  import opened Values
  import opened Environment
  import opened Expressions
  import Scanning

  class ExprEval {
    const t: TokenList
    const env: Env
    var i: nat

    ghost predicate Valid()
      reads this
    {
      i < |t|
    }

    /** What an evaluation method returned, in the terms of the
        specification: the same error, or the value with the cursor after
        the expression. */
    ghost function Got(r: Result<Value>): Result<Eval>
      reads this
    {
      match r
      case Ok(v) => Ok(Eval(v, i))
      case Err(e) => Err(e)
    }

    /** new ExprEval(tokens, env). */
    constructor (tokens: TokenList, env: Env)
      ensures t == tokens && this.env == env && i == 0 && Valid()
    {
      t := tokens;
      this.env := env;
      i := 0;
    }

    /** eat(tp, msg): the current token if it has kind tp, which is then
        passed; otherwise an error naming the current token. */
    method Eat(tp: TokenType, problem: EvalProblem) returns (r: Result<Token>)
      requires Valid()
      modifies this`i
      ensures t[old(i)].ttype == tp ==> r == Ok(t[old(i)]) && i == old(i) + 1
      ensures t[old(i)].ttype != tp ==> r == Err(EvalError(problem, t[old(i)])) && i == old(i)
      ensures tp != EOF ==> Valid()
    {
      if t[i].ttype != tp {
        return Err(EvalError(problem, t[i]));
      }
      r := Ok(t[i]);
      i := i + 1;
    }

    /** eatIf(tp): passes the current token when it has kind tp. */
    method EatIf(tp: TokenType) returns (b: bool)
      requires Valid() && tp != EOF
      modifies this`i
      ensures Valid()
      ensures b == (t[old(i)].ttype == tp) && i == if b then old(i) + 1 else old(i)
    {
      b := t[i].ttype == tp;
      if b {
        i := i + 1;
      }
    }

    /** parse(): an expression followed by EOF. */
    method Parse() returns (r: Result<Value>)
      requires Valid() && i == 0
      modifies this`i
      ensures r == Expressions.Parse(t, env)
    {
      var v :- Or();
      var _ :- Eat(EOF, EofExpected);
      return Ok(v);
    }

    /** or(): both operands are evaluated, the result is a Boolean. */
    method Or() returns (r: Result<Value>)
      requires Valid()
      modifies this`i
      ensures Got(r) == Expressions.Or(t, env, old(i))
      decreases |t| - i, 7
    {
      ghost var start := i;
      var left :- And();
      while true
        invariant Valid() && start < i
        invariant OrRest(t, env, left, i) == Expressions.Or(t, env, start)
        decreases |t| - i
      {
        var more := EatIf(OR);
        if !more {
          break;
        }
        var right :- And();
        left := VBool(Truthy(left) || Truthy(right));
      }
      return Ok(left);
    }

    /** and(): both operands are evaluated, the result is a Boolean. */
    method And() returns (r: Result<Value>)
      requires Valid()
      modifies this`i
      ensures Got(r) == Expressions.And(t, env, old(i))
      decreases |t| - i, 6
    {
      ghost var start := i;
      var left :- Cmp();
      while true
        invariant Valid() && start < i
        invariant AndRest(t, env, left, i) == Expressions.And(t, env, start)
        decreases |t| - i
      {
        var more := EatIf(AND);
        if !more {
          break;
        }
        var right :- Cmp();
        left := VBool(Truthy(left) && Truthy(right));
      }
      return Ok(left);
    }

    /** The chain of eatIf calls at the head of cmp's loop: the comparison
        operator passed, if the current token is one. */
    method EatRelation() returns (op: Option<TokenType>)
      requires Valid()
      modifies this`i
      ensures Valid()
      ensures op == if IsRelation(t[old(i)].ttype) then Some(t[old(i)].ttype) else None
      ensures i == if op.Some? then old(i) + 1 else old(i)
    {
      var b := EatIf(EQEQ);
      if b { return Some(EQEQ); }
      b := EatIf(NE);
      if b { return Some(NE); }
      b := EatIf(GE);
      if b { return Some(GE); }
      b := EatIf(LE);
      if b { return Some(LE); }
      b := EatIf(GT);
      if b { return Some(GT); }
      b := EatIf(LT);
      if b { return Some(LT); }
      return None;
    }

    /** cmp(): comparisons, left to right. */
    method Cmp() returns (r: Result<Value>)
      requires Valid()
      modifies this`i
      ensures Got(r) == Expressions.Cmp(t, env, old(i))
      decreases |t| - i, 5
    {
      ghost var start := i;
      var left :- Sum();
      while true
        invariant Valid() && start < i
        invariant CmpRest(t, env, left, i) == Expressions.Cmp(t, env, start)
        decreases |t| - i
      {
        var op := EatRelation();
        if op.None? {
          break;
        }
        var right :- Sum();
        left := Relate(op.value, left, right);
      }
      return Ok(left);
    }

    /** The eatIf calls at the head of add's loop. */
    method EatSum() returns (op: Option<TokenType>)
      requires Valid()
      modifies this`i
      ensures Valid()
      ensures op == if IsSum(t[old(i)].ttype) then Some(t[old(i)].ttype) else None
      ensures i == if op.Some? then old(i) + 1 else old(i)
    {
      var b := EatIf(PLUS);
      if b { return Some(PLUS); }
      b := EatIf(MINUS);
      if b { return Some(MINUS); }
      return None;
    }

    /** add(): sums and differences of the operands' num, left to right. */
    method Sum() returns (r: Result<Value>)
      requires Valid()
      modifies this`i
      ensures Got(r) == Expressions.Sum(t, env, old(i))
      decreases |t| - i, 4
    {
      ghost var start := i;
      var left :- Product();
      while true
        invariant Valid() && start < i
        invariant SumRest(t, env, left, i) == Expressions.Sum(t, env, start)
        decreases |t| - i
      {
        var op := EatSum();
        if op.None? {
          break;
        }
        var right :- Product();
        left := Arith(op.value, left, right);
      }
      return Ok(left);
    }

    /** The eatIf calls at the head of mul's loop. */
    method EatProduct() returns (op: Option<TokenType>)
      requires Valid()
      modifies this`i
      ensures Valid()
      ensures op == if IsProduct(t[old(i)].ttype) then Some(t[old(i)].ttype) else None
      ensures i == if op.Some? then old(i) + 1 else old(i)
    {
      var b := EatIf(STAR);
      if b { return Some(STAR); }
      b := EatIf(SLASH);
      if b { return Some(SLASH); }
      return None;
    }

    /** mul(): products and quotients of the operands' num, left to right. */
    method Product() returns (r: Result<Value>)
      requires Valid()
      modifies this`i
      ensures Got(r) == Expressions.Product(t, env, old(i))
      decreases |t| - i, 3
    {
      ghost var start := i;
      var left :- Unary();
      while true
        invariant Valid() && start < i
        invariant ProductRest(t, env, left, i) == Expressions.Product(t, env, start)
        decreases |t| - i
      {
        var op := EatProduct();
        if op.None? {
          break;
        }
        var right :- Unary();
        left := Arith(op.value, left, right);
      }
      return Ok(left);
    }

    /** unary(): negation by truthiness, arithmetic negation of num, or a
        primary. */
    method Unary() returns (r: Result<Value>)
      requires Valid()
      modifies this`i
      ensures Got(r) == Expressions.Unary(t, env, old(i))
      decreases |t| - i, 2
    {
      var not := EatIf(NOT);
      if not {
        var u :- Unary();
        return Ok(VBool(!Truthy(u)));
      }
      var minus := EatIf(MINUS);
      if minus {
        var u :- Unary();
        return Ok(VDbl(Neg(Num(u))));
      }
      r := Primary();
    }

    /** primary(): a literal, a parenthesised expression, or a dotted name. */
    method Primary() returns (r: Result<Value>)
      requires Valid()
      modifies this`i
      ensures Got(r) == Expressions.Primary(t, env, old(i))
      decreases |t| - i, 1
    {
      var lit := Literal();
      if lit.Some? {
        return lit.value;
      }
      assert t[i].ttype !in {NUMBER, STRING, TRUE, FALSE, NULL, UNDEFINED};
      var group := EatIf(LPAREN);
      if group {
        r := GroupRest();
        return;
      }
      var ident := EatIf(IDENT);
      if ident {
        r := Variable();
        return;
      }
      return Err(EvalError(InvalidExpression, t[i]));
    }

    /** The literal cases at the head of primary: nothing is passed when the
        current token is not a literal. */
    method Literal() returns (lit: Option<Result<Value>>)
      requires Valid()
      modifies this`i
      ensures Valid() && lit == LiteralOf(t[old(i)])
      ensures i == if lit.Some? then old(i) + 1 else old(i)
    {
      var b := EatIf(NUMBER);
      if b {
        var tk := t[i - 1];
        match NumberLiteral(tk.lexeme)
        case Some(v) => return Some(Ok(v));
        case None => return Some(Err(EvalError(NumberFormat, tk)));
      }
      b := EatIf(STRING);
      if b { return Some(Ok(VStr(t[i - 1].lexeme))); }
      b := EatIf(TRUE);
      if b { return Some(Ok(VBool(true))); }
      b := EatIf(FALSE);
      if b { return Some(Ok(VBool(false))); }
      b := EatIf(NULL);
      if !b {
        b := EatIf(UNDEFINED);
      }
      if b { return Some(Ok(VNull)); }
      return None;
    }

    /** The parenthesised case of primary, after its '('. */
    method GroupRest() returns (r: Result<Value>)
      requires Valid() && 0 < i
      modifies this`i
      ensures Got(r) == Group(t, env, old(i))
      decreases |t| - i, 8
    {
      var v :- Or();
      var _ :- Eat(RPAREN, MissingRParen);
      return Ok(v);
    }

    /** The name case of primary, after its first IDENT: the segments joined
        with '.' and looked up with getDeep. */
    method Variable() returns (r: Result<Value>)
      requires 0 < i < |t| && t[i - 1].ttype == IDENT
      modifies this`i
      ensures Got(r) == Expressions.Primary(t, env, old(i) - 1)
    {
      ghost var start := i;
      var sb := t[i - 1].lexeme;
      while true
        invariant Valid() && start <= i
        invariant PathFrom(t, i, sb) == PathFrom(t, start, t[start - 1].lexeme)
        decreases |t| - i
      {
        var dot := EatIf(DOT);
        if !dot {
          break;
        }
        var id :- Eat(IDENT, IdentAfterDot);
        sb := sb + "." + id.lexeme;
      }
      var v := GetDeep(env, sb);
      return Ok(v);
    }
  }

  /** The cleaning loop of evalExpr: every token but the NEWLINE ones, in
      order. */
  method DropNewlines(ts: seq<Token>) returns (cleaned: seq<Token>)
    ensures cleaned == WithoutNewlines(ts)
  {
    cleaned := [];
    for k := 0 to |ts|
      invariant cleaned == WithoutNewlines(ts[..k])
    {
      assert ts[..k + 1][..k] == ts[..k];
      if ts[k].ttype != NEWLINE {
        cleaned := cleaned + [ts[k]];
      }
    }
    assert ts[..|ts|] == ts;
  }

  /** evalExpr(expr, env): the expression scanned by the Tokenizer, cleaned
      of NEWLINE tokens and evaluated. */
  method EvalExpr(expr: string, env: Env) returns (r: Result<Value>)
    ensures r == Expressions.EvalExpr(expr, env)
  {
    var toks :- Scanning.TokenizeSource(Some(expr), AfterOperator);
    var cleaned := DropNewlines(toks);
    assert Cleaned(expr) == Ok(cleaned);
    var ev := new ExprEval(cleaned, env);
    r := ev.Parse();
  }
}
