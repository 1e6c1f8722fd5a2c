/**
 * Laws of normalisation by evaluation: evaluating a quoted value gives the
 * value back, so quoting is injective and comparing quotes is exactly
 * comparing values.
 */
module EvalLaws {
  import opened Wrappers
  import opened Base
  import opened Syntax
  import opened Values
  import opened Checker

  /** Evaluation drops annotations and maps each atom and name to its value. */
  lemma EvalRules(e: Expr, t: Expr, env: Env, x: Name, i: Level, k: Int)
    ensures Eval(Expr.Ann(e, t), env) == Eval(e, env)
    ensures Eval(Expr.U(i), env) == Ok(Value.U(i))
    ensures Eval(Expr.Int, env) == Ok(Value.Int)
    ensures Eval(Expr.IntLit(k), env) == Ok(Value.IntLit(k))
    ensures Eval(Expr.Trivial, env) == Ok(Value.Trivial)
    ensures Eval(Expr.Sole, env) == Ok(Value.Sole)
    ensures x in env ==> Eval(Expr.Var(x), env) == Ok(env[x])
    ensures x !in env ==> Eval(Expr.Var(x), env) == Ok(Value.Neutral(Neutral.Var(x)))
  {
  }

  /** A sum evaluates its operands left to right and adds their values. */
  lemma EvalAdd(a: Expr, b: Expr, env: Env)
    ensures Eval(Expr.Add(a, b), env) ==
      if Eval(a, env).Err? then Eval(a, env)
      else if Eval(b, env).Err? then Eval(b, env)
      else AddValues(Eval(a, env).value, Eval(b, env).value)
  {
  }

  lemma {:induction false} EvalQuoteNeutral(n: Neutral)
    ensures Eval(QuoteNeutral(n), map[]) == Ok(Value.Neutral(n))
  {
    match n
    case Add(m, v) =>
      EvalQuoteNeutral(m);
      EvalQuote(v);
    case Var(x) =>
  }

  /** `eval(quote(v), empty) = v` for every value, neutral ones included. */
  lemma {:induction false} EvalQuote(v: Value)
    ensures Eval(Quote(v), map[]) == Ok(v)
  {
    if v.Neutral? {
      EvalQuoteNeutral(v.neutral);
    }
  }

  /** Two values with the same quote are the same value. */
  lemma QuoteInjective(v: Value, w: Value)
    ensures Quote(v) == Quote(w) <==> v == w
  {
    EvalQuote(v);
    EvalQuote(w);
  }

  /**
   * Value addition on each kind of operand: `2 + 3` is `5`; `1 + x`, with
   * `x` free, is the stuck sum `x + 1` (the neutral operand moves to the
   * left); the largest `i64` plus one overflows; `U(0) + Int` is
   * `unreachable!()`.
   */
  lemma EvalExamples()
    ensures Eval(Expr.Add(Expr.IntLit(2), Expr.IntLit(3)), map[]) == Ok(Value.IntLit(5))
    ensures Eval(Expr.Add(Expr.IntLit(1), Expr.Var("x")), map[]) ==
      Ok(Value.Neutral(Neutral.Add(Neutral.Var("x"), Value.IntLit(1))))
    ensures Quote(Value.Neutral(Neutral.Add(Neutral.Var("x"), Value.IntLit(1)))) ==
      Expr.Add(Expr.Var("x"), Expr.IntLit(1))
    ensures Eval(Expr.Add(Expr.IntLit(INT_MAX), Expr.IntLit(1)), map[]) == Err(Overflow)
    ensures Eval(Expr.Add(Expr.U(0), Expr.Int), map[]) == Err(Unreachable)
  {
  }
}
