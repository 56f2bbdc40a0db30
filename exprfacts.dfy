/** Properties of the expression evaluator's specification (module
    Expressions): how and/or combine their operands, what the comparisons
    mean, that an expression must be read up to EOF, and worked examples of
    the Integer/Double split and of string literals that lost their quotes. */
module ExpressionFacts {
  import opened Text
  import opened Tokens
  import opened Lexer
  import opened LexerFacts
  import opened Grammar
  import opened Values
  import opened Environment
  import opened Expressions

  // ----- and / or -----

  /** The loop of or: once an operator has been read the value is a Boolean,
      and a truthy left operand keeps the result truthy whatever follows. */
  lemma {:induction false} OrRestFacts(t: TokenList, env: Env, left: Value, i: nat)
    requires i < |t|
    ensures var r := OrRest(t, env, left, i);
      && (r.Ok? && t[i].ttype == OR ==> r.value.v.VBool?)
      && (r.Ok? && Truthy(left) ==> Truthy(r.value.v))
    decreases |t| - i
  {
    if t[i].ttype == OR {
      var rt := And(t, env, i + 1);
      if rt.Ok? {
        OrRestFacts(t, env, VBool(Truthy(left) || Truthy(rt.value.v)), rt.value.next);
      }
    }
  }

  /** The loop of and: once an operator has been read the value is a
      Boolean, and a falsy left operand keeps the result falsy. */
  lemma {:induction false} AndRestFacts(t: TokenList, env: Env, left: Value, i: nat)
    requires i < |t|
    ensures var r := AndRest(t, env, left, i);
      && (r.Ok? && t[i].ttype == AND ==> r.value.v.VBool?)
      && (r.Ok? && !Truthy(left) ==> !Truthy(r.value.v))
    decreases |t| - i
  {
    if t[i].ttype == AND {
      var rt := Cmp(t, env, i + 1);
      if rt.Ok? {
        AndRestFacts(t, env, VBool(Truthy(left) && Truthy(rt.value.v)), rt.value.next);
      }
    }
  }

  /** One or: "x or y" with no further or gives the Boolean of x's or y's
      truthiness; one and gives the Boolean of both. */
  lemma OneOperator(t: TokenList, env: Env, left: Value, i: nat, v: Value, n: nat)
    requires i < |t|
    ensures t[i].ttype == OR && And(t, env, i + 1) == Ok(Eval(v, n)) && t[n].ttype != OR ==>
      OrRest(t, env, left, i) == Ok(Eval(VBool(Truthy(left) || Truthy(v)), n))
    ensures t[i].ttype == AND && Cmp(t, env, i + 1) == Ok(Eval(v, n)) && t[n].ttype != AND ==>
      AndRest(t, env, left, i) == Ok(Eval(VBool(Truthy(left) && Truthy(v)), n))
  {
  }

  /** The value of an or chain: the left operand only joins the chain's
      disjunction. The loop reads the same tokens, and fails the same way,
      whatever the left operand, and its result is truthy exactly when the
      left operand is or the chain started from false is. */
  lemma {:induction false} OrRestLeft(t: TokenList, env: Env, left: Value, i: nat)
    requires i < |t|
    ensures var r := OrRest(t, env, left, i); var r0 := OrRest(t, env, VBool(false), i);
      && (r.Ok? <==> r0.Ok?)
      && (r.Err? ==> r == r0)
      && (r.Ok? ==> r.value.next == r0.value.next)
      && (r.Ok? && t[i].ttype == OR ==> r.value.v == VBool(Truthy(left) || Truthy(r0.value.v)))
    decreases |t| - i
  {
    if t[i].ttype == OR {
      var rt := And(t, env, i + 1);
      if rt.Ok? {
        var n := rt.value.next;
        OrRestLeft(t, env, VBool(Truthy(left) || Truthy(rt.value.v)), n);
        OrRestLeft(t, env, VBool(Truthy(rt.value.v)), n);
      }
    }
  }

  /** The value of an and chain: the left operand only joins the chain's
      conjunction, the chain started from true. */
  lemma {:induction false} AndRestLeft(t: TokenList, env: Env, left: Value, i: nat)
    requires i < |t|
    ensures var r := AndRest(t, env, left, i); var r1 := AndRest(t, env, VBool(true), i);
      && (r.Ok? <==> r1.Ok?)
      && (r.Err? ==> r == r1)
      && (r.Ok? ==> r.value.next == r1.value.next)
      && (r.Ok? && t[i].ttype == AND ==> r.value.v == VBool(Truthy(left) && Truthy(r1.value.v)))
    decreases |t| - i
  {
    if t[i].ttype == AND {
      var rt := Cmp(t, env, i + 1);
      if rt.Ok? {
        var n := rt.value.next;
        AndRestLeft(t, env, VBool(Truthy(left) && Truthy(rt.value.v)), n);
        AndRestLeft(t, env, VBool(Truthy(rt.value.v)), n);
      }
    }
  }

  /** No short-circuit: the right operand of or and and is evaluated even
      when the left one decides the result, so its failure is the result. */
  lemma RightOperandAlwaysEvaluated(t: TokenList, env: Env, left: Value, i: nat)
    requires i < |t|
    ensures t[i].ttype == OR && And(t, env, i + 1).Err? ==>
      OrRest(t, env, left, i) == Err(And(t, env, i + 1).error)
    ensures t[i].ttype == AND && Cmp(t, env, i + 1).Err? ==>
      AndRest(t, env, left, i) == Err(Cmp(t, env, i + 1).error)
  {
  }

  // ----- unary -----

  /** not gives the Boolean negation of its operand's truthiness, unary
      minus the negated double of its operand's num; a failing operand is
      the result. */
  lemma UnaryValues(t: TokenList, env: Env, i: nat, u: Value, n: nat)
    requires i + 1 < |t| && Unary(t, env, i + 1) == Ok(Eval(u, n))
    ensures t[i].ttype == NOT ==> Unary(t, env, i) == Ok(Eval(VBool(!Truthy(u)), n))
    ensures t[i].ttype == MINUS ==> Unary(t, env, i) == Ok(Eval(VDbl(Neg(Num(u))), n))
  {
  }

  /** Twice not is truthiness as a Boolean; twice minus is num. */
  lemma DoubleNegation(t: TokenList, env: Env, i: nat, u: Value, n: nat)
    requires i + 2 < |t| && t[i].ttype == t[i + 1].ttype && Unary(t, env, i + 2) == Ok(Eval(u, n))
    ensures t[i].ttype == NOT ==> Unary(t, env, i) == Ok(Eval(VBool(Truthy(u)), n))
    ensures t[i].ttype == MINUS ==> Unary(t, env, i) == Ok(Eval(VDbl(Num(u)), n))
  {
    UnaryValues(t, env, i + 1, u, n);
    if t[i].ttype == NOT {
      UnaryValues(t, env, i, VBool(!Truthy(u)), n);
    } else if t[i].ttype == MINUS {
      UnaryValues(t, env, i, VDbl(Neg(Num(u))), n);
      assert Neg(Neg(Num(u))) == Num(u);
    }
  }

  // ----- comparisons -----

  /** What the comparison operators mean: != negates ==, <= and < are >= and
      > with the operands swapped, equal values are ordered both ways, and
      null equals only null. */
  lemma RelationFacts(a: Value, b: Value)
    ensures Relate(NE, a, b) == VBool(!Relate(EQEQ, a, b).b)
    ensures Relate(LE, a, b) == Relate(GE, b, a)
    ensures Relate(LT, a, b) == Relate(GT, b, a)
    ensures Relate(EQEQ, a, b).b ==> Relate(GE, a, b).b && Relate(LE, a, b).b
    ensures Relate(EQEQ, VNull, b).b <==> b == VNull
  {
    CompareAntisymmetric(a, b);
  }

  /** An Integer literal never equals the Double an arithmetic operator
      yields, since equals compares the boxed classes first. */
  lemma IntegerNeverEqualsResult(op: TokenType, x: Value, y: Value)
    requires IsSum(op) || IsProduct(op)
    ensures forall n :: Relate(EQEQ, VInt(n), Arith(op, x, y)) == VBool(false)
  {
  }

  // ----- reading up to EOF -----

  /** parse succeeds exactly when or succeeds and stops at the EOF token;
      when or stops earlier, the token it stopped at is reported. */
  lemma ParseReadsToEof(t: TokenList, env: Env)
    requires EofOnlyAtEnd(t)
    ensures Parse(t, env).Ok? <==> Or(t, env, 0).Ok? && Or(t, env, 0).value.next == |t| - 1
    ensures Parse(t, env).Ok? ==> Parse(t, env).value == Or(t, env, 0).value.v
    ensures Or(t, env, 0).Ok? && Or(t, env, 0).value.next < |t| - 1 ==>
      Parse(t, env) == Err(EvalError(EofExpected, t[Or(t, env, 0).value.next]))
  {
  }

  /** evalExpr succeeds only when the evaluator has read the whole text:
      the precedence climb over the cleaned tokens stops at their EOF. */
  lemma EvalReadsWholeText(expr: string, env: Env)
    ensures EvalExpr(expr, env).Ok? ==>
      var t := Cleaned(expr).value;
      Or(t, env, 0).Ok? && Or(t, env, 0).value.next == |t| - 1
  {
    if Cleaned(expr).Ok? {
      ParseReadsToEof(Cleaned(expr).value, env);
    }
  }

  /** The empty text is no expression: the evaluator fails at the EOF token. */
  lemma EmptyTextFails(env: Env)
    ensures EvalExpr("", env) == Err(EvalError(InvalidExpression, Token(EOF, "", 1, 1)))
  {
    EmptyTextCleaned();
    EofAloneFails(env);
  }

  lemma EmptyTextCleaned()
    ensures Cleaned("") == Ok([Token(EOF, "", 1, 1)])
  {
    var e := Token(EOF, "", 1, 1);
    assert Lex("", AfterOperator) == Ok([e]);
    assert WithoutNewlines([e]) == [e] by {
      assert [e][..0] == [];
    }
  }

  lemma EofAloneFails(env: Env)
    ensures Parse([Token(EOF, "", 1, 1)], env) == Err(EvalError(InvalidExpression, Token(EOF, "", 1, 1)))
  {
    var e := Token(EOF, "", 1, 1);
    var t: TokenList := [e];
    assert Primary(t, env, 0) == Err(EvalError(InvalidExpression, e));
    ErrorClimbs(t, env, EvalError(InvalidExpression, e));
  }

  // ----- a missing ')' and a lost quote -----

  /** A value read by primary passes unchanged through mul and add when no
      operator of theirs follows. */
  lemma AtomSum(t: TokenList, env: Env, k: nat, v: Value)
    requires k + 1 < |t| && t[k].ttype != NOT && t[k].ttype != MINUS
    requires Primary(t, env, k) == Ok(Eval(v, k + 1))
    requires !IsProduct(t[k + 1].ttype) && !IsSum(t[k + 1].ttype)
    ensures Sum(t, env, k) == Ok(Eval(v, k + 1))
  {
    assert Unary(t, env, k) == Primary(t, env, k);
    assert Product(t, env, k) == Ok(Eval(v, k + 1));
  }

  /** A value read by cmp is the value of the whole expression when the EOF
      token follows. */
  lemma CmpIsWhole(t: TokenList, env: Env, v: Value, n: nat)
    requires 0 < n < |t| && Cmp(t, env, 0) == Ok(Eval(v, n)) && t[n].ttype == EOF
    ensures Parse(t, env) == Ok(v)
  {
    assert And(t, env, 0) == Ok(Eval(v, n));
    assert Or(t, env, 0) == Ok(Eval(v, n));
  }

  /** A failure of primary at the first token is the failure of the whole
      expression. */
  lemma ErrorClimbs(t: TokenList, env: Env, e: Failure)
    requires t[0].ttype != NOT && t[0].ttype != MINUS && Primary(t, env, 0) == Err(e)
    ensures Parse(t, env) == Err(e)
  {
    ErrorToSum(t, env, e);
    assert Cmp(t, env, 0) == Err(e);
    assert And(t, env, 0) == Err(e);
  }

  lemma ErrorToSum(t: TokenList, env: Env, e: Failure)
    requires t[0].ttype != NOT && t[0].ttype != MINUS && Primary(t, env, 0) == Err(e)
    ensures Sum(t, env, 0) == Err(e)
  {
    assert Unary(t, env, 0) == Err(e);
    assert Product(t, env, 0) == Err(e);
  }

  /** An expression that opens with '(' fails when what follows the inner
      expression is not ')', naming the token found instead. */
  lemma UnclosedGroupFails(t: TokenList, env: Env)
    requires t[0].ttype == LPAREN && 1 < |t| && Or(t, env, 1).Ok?
    requires t[Or(t, env, 1).value.next].ttype != RPAREN
    ensures Parse(t, env) == Err(EvalError(MissingRParen, t[Or(t, env, 1).value.next]))
  {
    ErrorClimbs(t, env, EvalError(MissingRParen, t[Or(t, env, 1).value.next]));
  }

  /** The tokens of a op b, with a read from index 0 and b from index 2: the
      value is the comparison of the two. */
  lemma Comparison(t: TokenList, env: Env, a: Value, b: Value, n: nat)
    requires 2 < n < |t| && IsRelation(t[1].ttype) && t[n].ttype == EOF
    requires Sum(t, env, 0) == Ok(Eval(a, 1)) && Sum(t, env, 2) == Ok(Eval(b, n))
    ensures Parse(t, env) == Ok(Relate(t[1].ttype, a, b))
  {
    var r := Relate(t[1].ttype, a, b);
    assert CmpRest(t, env, a, 1) == Ok(Eval(r, n));
    CmpIsWhole(t, env, r, n);
  }

  /** The text the parser keeps for a line depends only on the lexemes and
      on where the line stops: a STRING token and an IDENT token with the
      same lexeme leave the same text. */
  lemma {:induction false} ReadSeesOnlyLexemes(a: seq<Token>, b: seq<Token>, i: nat, acc: string)
    requires Terminated(a) && Terminated(b) && |a| == |b| && i < |a|
    requires forall k :: 0 <= k < |a| ==> a[k].lexeme == b[k].lexeme
    requires forall k :: 0 <= k < |a| ==> StopsAt(a[k], None) == StopsAt(b[k], None)
    ensures ReadFrom(a, i, None, acc) == ReadFrom(b, i, None, acc)
    decreases |a| - i
  {
    if !StopsAt(a[i], None) {
      ReadSeesOnlyLexemes(a, b, i + 1, Append(acc, a[i].lexeme));
    }
  }

  /** A string literal in a rule condition loses its quotes: the line
      d == "USA" is kept as the same text as the line d == USA, and re-read
      USA is a name, which is null here. So the condition is false although
      d holds the string USA. */
  lemma QuotesLost(quoted: TokenList, bare: TokenList)
    requires |quoted| == 4 && quoted[0] == Token(IDENT, "d", 1, 1) && quoted[1].ttype == EQEQ
    requires quoted[2] == Token(STRING, "USA", 1, 6)
    requires bare == quoted[2 := Token(IDENT, "USA", 1, 6)]
    ensures ReadUntil(quoted, 0, None) == ReadUntil(bare, 0, None)
    ensures var env := map["d" := VStr("USA")];
      Parse(quoted, env) == Ok(VBool(true)) && Parse(bare, env) == Ok(VBool(false))
  {
    SameText(quoted, bare, 2);
    var env := map["d" := VStr("USA")];
    UsaLookups(env);
    NameEquals(quoted, env, VStr("USA"));
    NameEquals(bare, env, VNull);
  }

  /** Replacing a token by one with the same lexeme that is no NEWLINE or
      EOF leaves the text of the line unchanged. */
  lemma SameText(a: TokenList, b: TokenList, k: nat)
    requires k < |a| - 1 && b == a[k := Token(IDENT, a[k].lexeme, a[k].line, a[k].col)]
    requires a[k].ttype != NEWLINE && a[k].ttype != EOF
    ensures ReadUntil(a, 0, None) == ReadUntil(b, 0, None)
  {
    ReadSeesOnlyLexemes(a, b, 0, "");
  }

  lemma UsaLookups(env: Env)
    requires env == map["d" := VStr("USA")]
    ensures Lookup(env, "d") == VStr("USA") && Lookup(env, "USA") == VNull
  {
  }

  /** The tokens of d == x, where x is read as w. */
  lemma NameEquals(t: TokenList, env: Env, w: Value)
    requires |t| == 4 && t[0].ttype == IDENT && t[1].ttype == EQEQ && t[2].ttype in {STRING, IDENT}
    requires Primary(t, env, 2) == Ok(Eval(w, 3))
    ensures Parse(t, env) == Ok(VBool(Lookup(env, t[0].lexeme) == w))
  {
    var d := Lookup(env, t[0].lexeme);
    assert Primary(t, env, 0) == Ok(Eval(d, 1));
    AtomSum(t, env, 0, d);
    AtomSum(t, env, 2, w);
    Comparison(t, env, d, w, 3);
  }
}
