/**
 * The bidirectional checker (`check` against a given type, `infer` to
 * synthesise one) and the evaluator that turns terms into values.
 */
module Checker {
  import opened Wrappers
  import opened Base
  import opened Syntax
  import opened Values

  datatype TypeError =
    | TypeMismatch
    | NotFound
    | SynthesisFailure
      /** Evaluating an annotation's type aborted. */
    | Panicked(panic: Panic)

  /** The environment of a context: exactly its entries that carry a value. */
  function EnvOf(ctx: Context): (env: Env)
    ensures forall x :: x in env <==> x in ctx && ctx[x].1.Some?
    ensures forall x :: x in env ==> env[x] == ctx[x].1.value
  {
    map x | x in ctx && ctx[x].1.Some? :: ctx[x].1.value
  }

  /** Evaluation: annotations vanish, unbound names become stuck variables, sums go through `AddValues`. */
  function Eval(e: Expr, env: Env): (r: Result<Value, Panic>)
    ensures NoVars(e) && r.Ok? ==> !r.value.Neutral?
  {
    match e
    case Ann(e1, _) => Eval(e1, env)
    case U(i) => Ok(Value.U(i))
    case Int => Ok(Value.Int)
    case IntLit(i) => Ok(Value.IntLit(i))
    case Add(e1, e2) =>
      match Eval(e1, env) {
        case Err(p) => Err(p)
        case Ok(v1) =>
          match Eval(e2, env) {
            case Err(p) => Err(p)
            case Ok(v2) => AddValues(v1, v2)
          }
      }
    case Var(x) => if x in env then Ok(env[x]) else Ok(VarValue(x))
    case Trivial => Ok(Value.Trivial)
    case Sole => Ok(Value.Sole)
  }

  /**
   * Does one of the five direct checking rules accept `e` against `t`?
   * They cover constants only; sums, names and annotations always go
   * through synthesis, and a stuck type is never matched directly.
   */
  predicate CheckRule(e: Expr, t: Type): (r: bool)
    ensures r ==> !e.Ann? && !e.Add? && !e.Var? && !t.Neutral?
  {
    || (e.U? && t.U? && e.level < t.level)
    || (e.Int? && t.U?)
    || (e.IntLit? && t.Int?)
    || (e.Trivial? && t.U?)
    || (e.Sole? && t.Trivial?)
  }

  /**
   * Checking: a direct rule, or else infer a type and compare the quotes of
   * both types; an inference error is passed on unchanged.
   */
  function Check(e: Expr, t: Type, ctx: Context): (r: Outcome<TypeError>)
    ensures r == Fail(NotFound) ==> !NoVars(e)
    decreases e, 1
  {
    if CheckRule(e, t) then Pass
    else
      match Infer(e, ctx)
      case Err(err) => Fail(err)
      case Ok(t') => if AlphaEq(Quote(t), Quote(t')) then Pass else Fail(TypeMismatch)
  }

  /** Synthesis of a type; `U(LEVEL_MAX)` has none and falls to the catch-all failure. */
  function Infer(e: Expr, ctx: Context): (r: Result<Type, TypeError>)
    ensures r == Err(NotFound) ==> !NoVars(e)
    decreases e, 0
  {
    match e
    case Ann(e1, e2) =>
      match Check(e2, Value.U(LEVEL_MAX), ctx) {
        case Fail(err) => Err(err)
        case Pass =>
          match Eval(e2, EnvOf(ctx)) {
            case Err(p) => Err(Panicked(p))
            case Ok(t) =>
              match Check(e1, t, ctx) {
                case Fail(err) => Err(err)
                case Pass => Ok(t)
              }
          }
      }
    case U(i) => if i < LEVEL_MAX then Ok(Value.U(i + 1)) else Err(SynthesisFailure)
    case Int => Ok(Value.U(0))
    case IntLit(_) => Ok(Value.Int)
    case Add(e1, e2) =>
      match Check(e1, Value.Int, ctx) {
        case Fail(err) => Err(err)
        case Pass =>
          match Check(e2, Value.Int, ctx) {
            case Fail(err) => Err(err)
            case Pass => Ok(Value.Int)
          }
      }
    case Var(x) => if x in ctx then Ok(ctx[x].0) else Err(NotFound)
    case Trivial => Ok(Value.U(0))
    case Sole => Ok(Value.Trivial)
  }
}
