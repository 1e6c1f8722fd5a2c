/**
 * What acceptance by the checker guarantees about evaluation: the
 * `unreachable!()` arm of value-level addition is never reached, an
 * overflow can only happen where an `Int` is expected, and synthesis never
 * aborts while evaluating an annotation's type.
 */
module Safety {
  import opened Wrappers
  import opened Base
  import opened Syntax
  import opened Values
  import opened Checker
  import opened EvalLaws

  /** The value `v` is a possible inhabitant of type `t`. */
  predicate Fits(v: Value, t: Type) {
    match t
    case Int => v.IntLit? || v.Neutral?
    case U(j) => (v.U? && v.level < j) || v.Int? || v.Trivial? || v.Neutral?
    case Trivial => v.Sole? || v.Neutral?
    case _ => true
  }

  /** Every known value in the context fits the type recorded beside it. */
  predicate WfContext(ctx: Context) {
    forall x :: x in ctx && ctx[x].1.Some? ==> Fits(ctx[x].1.value, ctx[x].0)
  }

  /** Evaluation yields an inhabitant of `t`, or overflows an `Int` sum. */
  predicate EvalsInto(e: Expr, env: Env, t: Type) {
    match Eval(e, env)
    case Ok(v) => Fits(v, t)
    case Err(p) => p == Overflow && t == Value.Int
  }

  lemma {:induction false} CheckedEval(e: Expr, t: Type, ctx: Context)
    requires WfContext(ctx)
    requires Check(e, t, ctx) == Pass
    ensures EvalsInto(e, EnvOf(ctx), t)
    decreases e, 1
  {
    if !CheckRule(e, t) {
      var t' := Infer(e, ctx).value;
      QuoteInjective(t, t');
      InferredEval(e, t', ctx);
    }
  }

  lemma {:induction false} InferredEval(e: Expr, t: Type, ctx: Context)
    requires WfContext(ctx)
    requires Infer(e, ctx) == Ok(t)
    ensures EvalsInto(e, EnvOf(ctx), t)
    decreases e, 0
  {
    match e
    case Ann(e1, _) =>
      CheckedEval(e1, t, ctx);
    case Add(e1, e2) =>
      CheckedEval(e1, Value.Int, ctx);
      CheckedEval(e2, Value.Int, ctx);
    case _ =>
  }

  /** Under a well-formed context, neither judgment ever reports an aborted evaluation. */
  lemma {:induction false} CheckNeverPanics(e: Expr, t: Type, ctx: Context)
    requires WfContext(ctx)
    ensures !(Check(e, t, ctx).Fail? && Check(e, t, ctx).error.Panicked?)
    decreases e, 1
  {
    if !CheckRule(e, t) {
      InferNeverPanics(e, ctx);
    }
  }

  lemma {:induction false} InferNeverPanics(e: Expr, ctx: Context)
    requires WfContext(ctx)
    ensures !(Infer(e, ctx).Err? && Infer(e, ctx).error.Panicked?)
    decreases e, 0
  {
    match e
    case Ann(e1, e2) =>
      CheckNeverPanics(e2, Value.U(LEVEL_MAX), ctx);
      if Check(e2, Value.U(LEVEL_MAX), ctx) == Pass {
        CheckedEval(e2, Value.U(LEVEL_MAX), ctx);
        var t := Eval(e2, EnvOf(ctx)).value;
        CheckNeverPanics(e1, t, ctx);
      }
    case Add(e1, e2) =>
      CheckNeverPanics(e1, Value.Int, ctx);
      CheckNeverPanics(e2, Value.Int, ctx);
    case _ =>
  }

  /** Under the empty context every accepted term is closed. */
  lemma {:induction false} CheckedClosed(e: Expr, t: Type)
    requires Check(e, t, map[]) == Pass
    ensures NoVars(e)
    decreases e, 1
  {
    if !CheckRule(e, t) {
      InferredClosed(e);
    }
  }

  lemma {:induction false} InferredClosed(e: Expr)
    requires Infer(e, map[]).Ok?
    ensures NoVars(e)
    decreases e, 0
  {
    match e
    case Ann(e1, e2) =>
      CheckedClosed(e2, Value.U(LEVEL_MAX));
      CheckedClosed(e1, Infer(e, map[]).value);
    case Add(e1, e2) =>
      CheckedClosed(e1, Value.Int);
      CheckedClosed(e2, Value.Int);
    case _ =>
  }

  /**
   * The pipeline of the interactive loop, infer then evaluate in the empty
   * context: an accepted term never reaches `unreachable!()`, its value is
   * not stuck and inhabits the synthesised type, and only an `Int` sum can
   * overflow.
   */
  lemma AcceptedTermsEvaluate(e: Expr, t: Type)
    requires Infer(e, map[]) == Ok(t)
    ensures Eval(e, map[]) != Err(Unreachable)
    ensures Eval(e, map[]).Ok? ==> Fits(Eval(e, map[]).value, t) && !Eval(e, map[]).value.Neutral?
    ensures Eval(e, map[]).Err? ==> t == Value.Int
  {
    var ctx: Context := map[];
    assert EnvOf(ctx) == map[];
    InferredEval(e, t, ctx);
    InferredClosed(e);
  }

  /** Consequently a closed term of type `Int` evaluates to a literal, unless the sum overflows. */
  lemma ClosedIntIsLiteral(e: Expr)
    requires Infer(e, map[]) == Ok(Value.Int)
    ensures Eval(e, map[]).Ok? ==> Eval(e, map[]).value.IntLit?
    ensures Eval(e, map[]).Err? ==> Eval(e, map[]).error == Overflow
  {
    AcceptedTermsEvaluate(e, Value.Int);
  }
}
