/**
 * The scalar aliases of the crate root and the precedence order used
 * when terms are displayed.
 */
module Base {

  /** Bounds of `Int`, a signed 64-bit integer. */
  const INT_MIN: int := -0x8000_0000_0000_0000
  const INT_MAX: int := 0x7FFF_FFFF_FFFF_FFFF

  predicate InInt(x: int) {
    INT_MIN <= x <= INT_MAX
  }

  type Int = x: int | INT_MIN <= x <= INT_MAX

  /** `Level` is an unsigned 8-bit integer, so `U(LEVEL_MAX)` is the top universe. */
  const LEVEL_MAX: int := 255

  type Level = x: int | 0 <= x <= LEVEL_MAX

  type Name = string

  /** Binding strength of a term when displayed; the derived order follows declaration order. */
  datatype Prec = Ann | Add | Atom

  function Rank(p: Prec): nat {
    match p
    case Ann => 0
    case Add => 1
    case Atom => 2
  }

  /** The derived `<` on `Prec`. */
  predicate Below(p: Prec, q: Prec) {
    Rank(p) < Rank(q)
  }

  /** The derived order is strict and total: `Ann < Add < Atom`. */
  lemma PrecOrder(p: Prec, q: Prec, o: Prec)
    ensures Below(Prec.Ann, Prec.Add) && Below(Prec.Add, Prec.Atom)
    ensures !Below(p, p)
    ensures Below(p, q) && Below(q, o) ==> Below(p, o)
    ensures p != q ==> Below(p, q) || Below(q, p)
    ensures Below(p, Prec.Add) <==> p == Prec.Ann
  {
  }
}
