/**
 * Term syntax: the expressions the parser produces and the checker
 * consumes, their structural equality and their display.
 */
module Syntax {
  import opened Base
  import opened Decimal

  datatype Expr =
    | Ann(term: Expr, ty: Expr)
    | U(level: Level)
    | Int
    | IntLit(value: Int)
    | Add(lhs: Expr, rhs: Expr)
    | Var(name: Name)
    | Trivial
    | Sole

  /** The term has no name in it, annotations included. */
  predicate NoVars(e: Expr) {
    match e
    case Ann(a, b) => NoVars(a) && NoVars(b)
    case Add(a, b) => NoVars(a) && NoVars(b)
    case Var(_) => false
    case _ => true
  }

  /**
   * Equality of terms up to renaming of bound variables. There are no
   * binders, so it is exact structural equality, defined for every pair.
   */
  function AlphaEq(a: Expr, b: Expr): (r: bool)
    ensures r <==> a == b
  {
    a == b
  }

  /** How tightly a term binds; only an annotation binds more loosely than `+`. */
  function PrecOf(e: Expr): (p: Prec)
    ensures Below(p, Prec.Add) <==> e.Ann?
    ensures Below(Prec.Add, p) <==> !e.Ann? && !e.Add?
  {
    match e
    case Ann(_, _) => Prec.Ann
    case Add(_, _) => Prec.Add
    case _ => Prec.Atom
  }

  /** `fmt_parens`: the display of `e`, in parentheses when `parens` holds. */
  function ShowParens(e: Expr, parens: bool): (r: string)
    ensures parens ==> |r| == |Show(e)| + 2 && r[0] == '(' && r[|r| - 1] == ')' && r[1..|r| - 1] == Show(e)
    ensures !parens ==> r == Show(e)
    decreases e, 1
  {
    if parens then "(" + Show(e) + ")" else Show(e)
  }

  /** The `Display` rendering of a term. */
  function Show(e: Expr): string
    decreases e, 0
  {
    match e
    case Ann(a, b) => Show(a) + " : " + Show(b)
    case U(i) => "U(" + NatToString(i) + ")"
    case Int => "Int"
    case IntLit(i) => IntToString(i)
    case Add(a, b) =>
      ShowParens(a, Below(PrecOf(a), PrecOf(e))) + " + " + ShowParens(b, Below(PrecOf(b), PrecOf(e)))
    case Var(x) => x
    case Trivial => "Trivial"
    case Sole => "sole"
  }

  /**
   * An operand of `+` is parenthesised exactly when it is an annotation,
   * and an annotation itself is printed without parentheses.
   */
  lemma ShowLayout(a: Expr, b: Expr)
    ensures Show(Expr.Add(a, b)) ==
      (if a.Ann? then "(" + Show(a) + ")" else Show(a)) + " + " +
      (if b.Ann? then "(" + Show(b) + ")" else Show(b))
    ensures Show(Expr.Ann(a, b)) == Show(a) + " : " + Show(b)
  {
    PrecOrder(PrecOf(a), PrecOf(b), Prec.Add);
  }

  lemma PlusAssoc(x: string, y: string, z: string)
    ensures x + " + " + (y + " + " + z) == (x + " + " + y) + " + " + z
  {
  }

  /** A right-nested sum prints like the left-nested one, so display is not injective. */
  lemma ShowForgetsRightNesting(a: Expr, b: Expr, c: Expr)
    ensures Show(Expr.Add(a, Expr.Add(b, c))) == Show(Expr.Add(Expr.Add(a, b), c))
    ensures Expr.Add(a, Expr.Add(b, c)) != Expr.Add(Expr.Add(a, b), c)
  {
    var pa := if a.Ann? then "(" + Show(a) + ")" else Show(a);
    var pb := if b.Ann? then "(" + Show(b) + ")" else Show(b);
    var pc := if c.Ann? then "(" + Show(c) + ")" else Show(c);
    var bc, ab := Expr.Add(b, c), Expr.Add(a, b);
    ShowLayout(b, c);
    ShowLayout(a, b);
    ShowLayout(a, bc);
    ShowLayout(ab, c);
    PlusAssoc(pa, pb, pc);
  }

  /** Nested annotations print without parentheses on either side, so they collide too. */
  lemma ShowForgetsAnnNesting(a: Expr, b: Expr, c: Expr)
    ensures Show(Expr.Ann(Expr.Ann(a, b), c)) == Show(Expr.Ann(a, Expr.Ann(b, c)))
    ensures Expr.Ann(Expr.Ann(a, b), c) != Expr.Ann(a, Expr.Ann(b, c))
  {
    var x, y, z := Show(a), Show(b), Show(c);
    assert Show(Expr.Ann(Expr.Ann(a, b), c)) == (x + " : " + y) + " : " + z;
    assert Show(Expr.Ann(a, Expr.Ann(b, c))) == x + " : " + (y + " : " + z);
    ColonAssoc(x, y, z);
  }

  lemma ColonAssoc(x: string, y: string, z: string)
    ensures (x + " : " + y) + " : " + z == x + " : " + (y + " : " + z)
  {
  }
}
