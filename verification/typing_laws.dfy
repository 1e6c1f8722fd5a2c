/**
 * Laws of the bidirectional checker: strict cumulativity, the direct
 * rules, synthesis soundness, and how errors surface.
 */
module TypingLaws {
  import opened Wrappers
  import opened Base
  import opened Syntax
  import opened Values
  import opened Checker
  import opened EvalLaws

  /**
   * Because quoting is injective, checking succeeds exactly when a direct
   * rule applies or the synthesised type is the expected one.
   */
  lemma CheckMeaning(e: Expr, t: Type, ctx: Context)
    ensures Check(e, t, ctx) == Pass <==> CheckRule(e, t) || Infer(e, ctx) == Ok(t)
  {
    if !CheckRule(e, t) && Infer(e, ctx).Ok? {
      QuoteInjective(t, Infer(e, ctx).value);
    }
  }

  /** Soundness of synthesis: a synthesised type is one the term checks against. */
  lemma InferSound(e: Expr, t: Type, ctx: Context)
    requires Infer(e, ctx) == Ok(t)
    ensures Check(e, t, ctx) == Pass
  {
    CheckMeaning(e, t, ctx);
  }

  /** The fallback passes an inference error on unchanged and reports any other failure as a mismatch. */
  lemma CheckErrors(e: Expr, t: Type, ctx: Context)
    requires !CheckRule(e, t)
    ensures Infer(e, ctx).Err? ==> Check(e, t, ctx) == Fail(Infer(e, ctx).error)
    ensures Infer(e, ctx).Ok? && Infer(e, ctx).value != t ==> Check(e, t, ctx) == Fail(TypeMismatch)
  {
    if Infer(e, ctx).Ok? {
      QuoteInjective(t, Infer(e, ctx).value);
    }
  }

  /** Strict cumulativity: `U(i)` lives in `U(j)` exactly when `i < j`; never in its own level. */
  lemma Cumulativity(i: Level, j: Level, ctx: Context)
    ensures Check(Expr.U(i), Value.U(j), ctx) == Pass <==> i < j
    ensures j <= i < LEVEL_MAX ==> Check(Expr.U(i), Value.U(j), ctx) == Fail(TypeMismatch)
    ensures i == LEVEL_MAX ==> Check(Expr.U(i), Value.U(j), ctx) == Fail(SynthesisFailure)
  {
    CheckMeaning(Expr.U(i), Value.U(j), ctx);
  }

  /** `U(i)` synthesises `U(i + 1)` below the top level; the top universe has no type. */
  lemma InferUniverse(i: Level, ctx: Context)
    ensures i < LEVEL_MAX ==> Infer(Expr.U(i), ctx) == Ok(Value.U(i + 1))
    ensures i == LEVEL_MAX ==> Infer(Expr.U(i), ctx) == Err(SynthesisFailure)
  {
  }

  /** `Int` and `Trivial` inhabit every universe, `U(0)` included, and nothing else. */
  lemma TypeFormers(t: Type, ctx: Context)
    ensures Check(Expr.Int, t, ctx) == Pass <==> t.U?
    ensures Check(Expr.Trivial, t, ctx) == Pass <==> t.U?
    ensures Infer(Expr.Int, ctx) == Ok(Value.U(0)) && Infer(Expr.Trivial, ctx) == Ok(Value.U(0))
  {
    CheckMeaning(Expr.Int, t, ctx);
    CheckMeaning(Expr.Trivial, t, ctx);
  }

  /** An integer literal checks only against `Int`, and `sole` only against `Trivial`. */
  lemma Literals(k: Int, t: Type, ctx: Context)
    ensures Check(Expr.IntLit(k), t, ctx) == Pass <==> t == Value.Int
    ensures Check(Expr.Sole, t, ctx) == Pass <==> t == Value.Trivial
    ensures Infer(Expr.IntLit(k), ctx) == Ok(Value.Int) && Infer(Expr.Sole, ctx) == Ok(Value.Trivial)
  {
    CheckMeaning(Expr.IntLit(k), t, ctx);
    CheckMeaning(Expr.Sole, t, ctx);
  }

  /** A sum has type `Int` exactly when both operands check against `Int`, and no other type. */
  lemma InferAdd(a: Expr, b: Expr, t: Type, ctx: Context)
    ensures Infer(Expr.Add(a, b), ctx) == Ok(Value.Int) <==>
      Check(a, Value.Int, ctx) == Pass && Check(b, Value.Int, ctx) == Pass
    ensures Check(Expr.Add(a, b), t, ctx) == Pass ==> t == Value.Int
    ensures Check(a, Value.Int, ctx).Fail? ==> Infer(Expr.Add(a, b), ctx) == Err(Check(a, Value.Int, ctx).error)
  {
    CheckMeaning(Expr.Add(a, b), t, ctx);
  }

  /** A name has the type its context entry records, or is not found. */
  lemma InferVar(x: Name, ctx: Context)
    ensures x in ctx ==> Infer(Expr.Var(x), ctx) == Ok(ctx[x].0)
    ensures x !in ctx ==> Infer(Expr.Var(x), ctx) == Err(NotFound)
  {
  }

  /**
   * An annotation synthesises its type term's value, evaluated under the
   * context's known values, once that term checks against the top universe
   * and the annotated term checks against the value.
   */
  lemma InferAnn(e: Expr, ty: Expr, t: Type, ctx: Context)
    ensures Infer(Expr.Ann(e, ty), ctx) == Ok(t) <==>
      && Check(ty, Value.U(LEVEL_MAX), ctx) == Pass
      && Eval(ty, EnvOf(ctx)) == Ok(t)
      && Check(e, t, ctx) == Pass
    ensures Check(ty, Value.U(LEVEL_MAX), ctx).Fail? ==>
      Infer(Expr.Ann(e, ty), ctx) == Err(Check(ty, Value.U(LEVEL_MAX), ctx).error)
  {
  }

  /**
   * Verdicts on closed input: `U(0)` checks against `U(1)` but `U(1)` does
   * not, `2 + 3` has type `Int`, an unknown name is not found, `sole` checks
   * against `Trivial` and not against `Int`, and `5 : Int` has type `Int`.
   */
  lemma CheckExamples()
    ensures Check(Expr.U(0), Value.U(1), map[]) == Pass
    ensures Check(Expr.U(1), Value.U(1), map[]) == Fail(TypeMismatch)
    ensures Infer(Expr.Add(Expr.IntLit(2), Expr.IntLit(3)), map[]) == Ok(Value.Int)
    ensures Infer(Expr.Var("y"), map[]) == Err(NotFound)
    ensures Check(Expr.Sole, Value.Trivial, map[]) == Pass
    ensures Check(Expr.Sole, Value.Int, map[]) == Fail(TypeMismatch)
    ensures Infer(Expr.Ann(Expr.IntLit(5), Expr.Int), map[]) == Ok(Value.Int)
  {
    Cumulativity(1, 1, map[]);
  }
}
