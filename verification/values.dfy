/**
 * The semantic domain of normalisation by evaluation: values, the stuck
 * (neutral) computations among them, value-level addition, and quoting
 * back to terms. Also the typing context and the evaluation environment.
 */
module Values {
  import opened Wrappers
  import opened Base
  import opened Syntax

  /** A computation blocked on a free variable. */
  datatype Neutral =
    | Add(stuck: Neutral, operand: Value)
    | Var(name: Name)

  datatype Value =
    | U(level: Level)
    | Int
    | IntLit(value: Int)
    | Neutral(neutral: Neutral)
    | Trivial
    | Sole

  /** Types are values. */
  type Type = Value

  /** Each name has a type and, optionally, a known value. */
  type Context = map<Name, (Type, Option<Value>)>

  type Env = map<Name, Value>

  /** Why evaluation aborts: `unreachable!()`, or `i64` addition overflowing (a debug build). */
  datatype Panic = Unreachable | Overflow

  function QuoteNeutral(n: Neutral): (r: Expr)
    ensures r.Var? || r.Add?
  {
    match n
    case Add(m, v) => Expr.Add(QuoteNeutral(m), Quote(v))
    case Var(x) => Expr.Var(x)
  }

  /** Reads a value back as a term; neutral values, and only they, become `Var` or `Add` terms. */
  function Quote(v: Value): (r: Expr)
    ensures v.Neutral? <==> r.Var? || r.Add?
  {
    match v
    case U(i) => Expr.U(i)
    case Int => Expr.Int
    case IntLit(i) => Expr.IntLit(i)
    case Neutral(n) => QuoteNeutral(n)
    case Trivial => Expr.Trivial
    case Sole => Expr.Sole
  }

  /** `Value::var`: a free variable as a stuck value. */
  function VarValue(x: Name): (v: Value)
    ensures v.Neutral? && Quote(v) == Expr.Var(x)
  {
    Value.Neutral(Neutral.Var(x))
  }

  /**
   * Value-level `+`. Two literals add (aborting on overflow); otherwise a
   * neutral operand, the left one first, is kept on the left of a stuck sum
   * and the other operand goes on its right; anything else is `unreachable!()`.
   */
  function AddValues(a: Value, b: Value): (r: Result<Value, Panic>)
    ensures a.IntLit? && b.IntLit? ==>
      if InInt(a.value + b.value) then r == Ok(Value.IntLit(a.value + b.value)) else r == Err(Overflow)
    ensures a.Neutral? ==> r == Ok(Value.Neutral(Neutral.Add(a.neutral, b)))
    ensures !a.Neutral? && b.Neutral? ==> r == Ok(Value.Neutral(Neutral.Add(b.neutral, a)))
    ensures r == Err(Unreachable) <==> !a.Neutral? && !b.Neutral? && !(a.IntLit? && b.IntLit?)
  {
    match (a, b)
    case (IntLit(i), IntLit(j)) =>
      if InInt(i + j) then Ok(Value.IntLit(i + j)) else Err(Overflow)
    case (Neutral(n), v) => Ok(Value.Neutral(Neutral.Add(n, v)))
    case (v, Neutral(n)) => Ok(Value.Neutral(Neutral.Add(n, v)))
    case _ => Err(Unreachable)
  }
}
