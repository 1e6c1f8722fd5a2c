/**
 * The surface grammar, as a recursive-descent parser over characters that
 * tries the same alternatives in the same order as the combinator grammar:
 *
 *   expr  := chain (':' chain)?
 *   chain := atom ('+' atom)*            folded to the left
 *   atom  := '(' expr ')' | 'Int' | 'Trivial' | 'sole' | i64 | 'U' '(' u8 ')' | name
 *
 * Each partial parser returns the value read and the input left over.
 */
module Parser {
  import opened Wrappers
  import opened Base
  import opened Decimal
  import opened Syntax

  /** The whitespace that `multispace0` and trimming skip. */
  predicate IsSpace(c: char) {
    c == ' ' || c == '\t' || c == '\r' || c == '\n'
  }

  predicate AllSpace(s: seq<char>) {
    forall i :: 0 <= i < |s| ==> IsSpace(s[i])
  }

  /** `multispace0`: drops leading whitespace. */
  function SkipSpace(s: seq<char>): (r: seq<char>)
    ensures |r| <= |s|
    ensures r == [] || !IsSpace(r[0])
  {
    if s != [] && IsSpace(s[0]) then SkipSpace(s[1..]) else s
  }

  /** Drops trailing whitespace. */
  function TrimEnd(s: seq<char>): (r: seq<char>)
    ensures |r| <= |s| && r == s[..|r|]
    ensures r == [] || !IsSpace(r[|r| - 1])
  {
    if s != [] && IsSpace(s[|s| - 1]) then TrimEnd(s[..|s| - 1]) else s
  }

  /** `str::trim`: what is left starts and ends with a character that is not whitespace. */
  function Trim(s: seq<char>): (r: seq<char>)
    ensures r == [] || (!IsSpace(r[0]) && !IsSpace(r[|r| - 1]))
  {
    TrimEnd(SkipSpace(s))
  }

  predicate StartsWith(s: seq<char>, p: seq<char>) {
    |p| <= |s| && s[..|p|] == p
  }

  predicate IsAlpha(c: char) {
    'a' <= c <= 'z' || 'A' <= c <= 'Z'
  }

  predicate IsIdentStart(c: char) {
    IsAlpha(c) || c == '_'
  }

  predicate IsIdentChar(c: char) {
    IsAlpha(c) || IsDigit(c) || c == '_' || c == '\''
  }

  /** Number of leading identifier characters. */
  function IdentRun(s: seq<char>): (n: nat)
    ensures n <= |s|
    ensures forall i :: 0 <= i < n ==> IsIdentChar(s[i])
    ensures n < |s| ==> !IsIdentChar(s[n])
  {
    if s != [] && IsIdentChar(s[0]) then 1 + IdentRun(s[1..]) else 0
  }

  /** `parse_name`: a letter or `_`, then the longest run of letters, digits, `_` and `'`. */
  function ParseName(s: seq<char>): (r: Option<(Name, seq<char>)>)
    ensures r.Some? <==> s != [] && IsIdentStart(s[0])
    ensures r.Some? ==> var (x, rest) := r.value;
      && s == x + rest && |x| > 0
      && (forall i :: 0 <= i < |x| ==> IsIdentChar(x[i]))
      && (rest == [] || !IsIdentChar(rest[0]))
  {
    if s != [] && IsIdentStart(s[0]) then
      var n := 1 + IdentRun(s[1..]);
      assert s == s[..n] + s[n..];
      Some((s[..n], s[n..]))
    else None
  }

  /**
   * nom's `i64`: an optional `-` or `+`, then the longest run of digits,
   * failing when there is none or when the number is out of range.
   */
  function ParseI64(s: seq<char>): (r: Option<(Int, seq<char>)>)
    ensures r.Some? ==> |r.value.1| < |s|
  {
    var signed := s != [] && (s[0] == '-' || s[0] == '+');
    var digits := if signed then s[1..] else s;
    var n := DigitRun(digits);
    if n == 0 then None
    else
      var m: int := DigitsValue(digits[..n]);
      var x: int := if signed && s[0] == '-' then -m else m;
      if InInt(x) then Some((x, digits[n..])) else None
  }

  /** nom's `u8`: the longest run of digits, failing when there is none or the value exceeds 255. */
  function ParseU8(s: seq<char>): (r: Option<(Level, seq<char>)>)
    ensures r.Some? ==> |r.value.1| < |s|
  {
    var n := DigitRun(s);
    if n == 0 then None
    else
      var m := DigitsValue(s[..n]);
      if m <= LEVEL_MAX then Some((m, s[n..])) else None
  }

  /** A universe literal: `U`, optional whitespace, then `(` level `)` with whitespace inside. */
  function ParseUniverse(s: seq<char>): (r: Option<(Level, seq<char>)>)
    ensures r.Some? ==> |r.value.1| < |s|
  {
    if s != [] && s[0] == 'U' then
      var t := SkipSpace(s[1..]);
      if t != [] && t[0] == '(' then
        match ParseU8(SkipSpace(t[1..])) {
          case Some((i, rest)) =>
            var u := SkipSpace(rest);
            if u != [] && u[0] == ')' then Some((i, u[1..])) else None
          case None => None
        }
      else None
    else None
  }

  /** `parens(ws(parse_expr))`: an expression in parentheses, with whitespace just inside them. */
  function ParseGroup(s: seq<char>): (r: Option<(Expr, seq<char>)>)
    ensures r.Some? ==> |r.value.1| < |s|
    decreases |s|, 0
  {
    if s != [] && s[0] == '(' then
      match ParseExpr(SkipSpace(s[1..])) {
        case Some((e, rest)) =>
          var close := SkipSpace(rest);
          if close != [] && close[0] == ')' then Some((e, close[1..])) else None
        case None => None
      }
    else None
  }

  /** The keyword alternatives, tried in order; a keyword is read even when an identifier character follows. */
  function ParseKeyword(s: seq<char>): (r: Option<(Expr, seq<char>)>)
    ensures r.Some? <==> StartsWith(s, "Int") || StartsWith(s, "Trivial") || StartsWith(s, "sole")
    ensures r.Some? ==> var (k, rest) := r.value;
      && (k == Expr.Int || k == Expr.Trivial || k == Expr.Sole)
      && s == Show(k) + rest
    ensures r.Some? ==> |r.value.1| < |s|
  {
    assert StartsWith(s, "Int") ==> s == "Int" + s[3..];
    assert StartsWith(s, "Trivial") ==> s == "Trivial" + s[7..];
    assert StartsWith(s, "sole") ==> s == "sole" + s[4..];
    if StartsWith(s, "Int") then Some((Expr.Int, s[3..]))
    else if StartsWith(s, "Trivial") then Some((Expr.Trivial, s[7..]))
    else if StartsWith(s, "sole") then Some((Expr.Sole, s[4..]))
    else None
  }

  /** The alternatives after the parenthesised one, tried in order: keywords, integer, universe, name. */
  function ParseToken(s: seq<char>): (r: Option<(Expr, seq<char>)>)
    ensures r.Some? ==> |r.value.1| < |s|
  {
    match ParseKeyword(s) {
      case Some(r) => Some(r)
      case None =>
        match ParseI64(s) {
          case Some((k, rest)) => Some((Expr.IntLit(k), rest))
          case None =>
            match ParseUniverse(s) {
              case Some((i, rest)) => Some((Expr.U(i), rest))
              case None =>
                match ParseName(s) {
                  case Some((x, rest)) => Some((Expr.Var(x), rest))
                  case None => None
                }
            }
        }
    }
  }

  /** One operand of a sum; the alternatives are tried in order and the first that succeeds wins. */
  function ParseAtom(s: seq<char>): (r: Option<(Expr, seq<char>)>)
    ensures r.Some? ==> |r.value.1| < |s|
    decreases |s|, 1
  {
    match ParseGroup(s)
    case Some(r) => Some(r)
    case None => ParseToken(s)
  }

  /**
   * The rest of a `+` chain after `acc`. When a `+` is not followed by an
   * operand the chain ends before that `+`, which is left unread.
   */
  function AddTail(acc: Expr, s: seq<char>): (r: (Expr, seq<char>))
    ensures |r.1| <= |s|
    decreases |s|, 2
  {
    var t := SkipSpace(s);
    if t != [] && t[0] == '+' then
      match ParseAtom(SkipSpace(t[1..])) {
        case Some((b, rest)) => AddTail(Expr.Add(acc, b), rest)
        case None => (acc, s)
      }
    else (acc, s)
  }

  /** `parse_add`: one or more operands separated by `+`, folded to the left. */
  function ParseAdd(s: seq<char>): (r: Option<(Expr, seq<char>)>)
    ensures r.Some? ==> |r.value.1| < |s|
    decreases |s|, 2
  {
    match ParseAtom(s)
    case Some((a, rest)) => Some(AddTail(a, rest))
    case None => None
  }

  /** `parse_expr`: a chain, optionally followed by `:` and a second chain. */
  function ParseExpr(s: seq<char>): (r: Option<(Expr, seq<char>)>)
    ensures r.Some? ==> |r.value.1| < |s|
    decreases |s|, 3
  {
    match ParseAdd(s) {
      case None => None
      case Some((a, rest)) =>
        var t := SkipSpace(rest);
        if t != [] && t[0] == ':' then
          match ParseAdd(SkipSpace(t[1..])) {
            case Some((b, rest')) => Some((Expr.Ann(a, b), rest'))
            case None => Some((a, rest))
          }
        else Some((a, rest))
    }
  }

  /** `FromStr`: the trimmed line must be one expression with nothing left over. */
  function Parse(line: string): Option<Expr> {
    match ParseExpr(Trim(line))
    case Some((e, rest)) => if rest == [] then Some(e) else None
    case None => None
  }
}
