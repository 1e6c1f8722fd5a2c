/**
 * What the grammar promises, stated against the display of terms: for
 * every term whose display is unambiguous, parsing the display gives the
 * term back; sums fold to the left; keywords win over identifiers;
 * literals out of range, a second `:`, empty input and trailing input
 * are rejected; whitespace is allowed around `+`, `:`, inside parentheses
 * and around the whole line.
 *
 * The short lemmas whose names end in `Text`, and `ColonNest`, state only
 * how strings regroup under concatenation. They keep those facts apart
 * from the parser's definitions so that each parsing step stays small for
 * the solver.
 */
module ParserLaws {
  import opened Wrappers
  import opened Base
  import opened Decimal
  import opened Syntax
  import opened Parser

  /** A name the parser reads back as a variable: an identifier that does not start with a keyword. */
  predicate ValidName(x: Name) {
    && |x| > 0
    && IsIdentStart(x[0])
    && (forall i :: 0 <= i < |x| ==> IsIdentChar(x[i]))
    && !StartsWith(x, "Int") && !StartsWith(x, "Trivial") && !StartsWith(x, "sole")
  }

  /** Terms displayed as a single token. */
  predicate Simple(e: Expr) {
    match e
    case Var(x) => ValidName(x)
    case Ann(_, _) => false
    case Add(_, _) => false
    case _ => true
  }

  /**
   * A left-nested sum whose operands are tokens or parenthesised
   * annotations; its right operands are never sums.
   */
  predicate Chain(e: Expr) {
    match e
    case Add(a, b) => (Chain(a) || Grouped(a)) && (Simple(b) || Grouped(b))
    case _ => Simple(e)
  }

  /** An annotation of one chain by another. */
  predicate Grouped(e: Expr) {
    e.Ann? && Chain(e.term) && Chain(e.ty)
  }

  /** Terms whose display is read back unchanged. */
  predicate Printable(e: Expr) {
    Chain(e) || Grouped(e)
  }

  /** How a term is displayed as an operand of `+`. */
  function ShowOperand(e: Expr): string {
    if e.Ann? then "(" + Show(e) + ")" else Show(e)
  }

  /** Input that cannot continue the token just read. */
  predicate AtomStop(rest: seq<char>) {
    rest == [] || (!IsIdentChar(rest[0]) && (SkipSpace(rest) == [] || SkipSpace(rest)[0] != '('))
  }

  /** Input that ends an expression: nothing, or a closing parenthesis after whitespace. */
  predicate ExprStop(rest: seq<char>) {
    AtomStop(rest) && (SkipSpace(rest) == [] || SkipSpace(rest)[0] == ')')
  }

  lemma {:induction false} SkipSpaces(w: seq<char>, x: seq<char>)
    requires AllSpace(w)
    requires x == [] || !IsSpace(x[0])
    ensures SkipSpace(w + x) == x
  {
    if w != [] {
      assert (w + x)[1..] == w[1..] + x;
      SkipSpaces(w[1..], x);
    }
  }

  lemma {:induction false} TrimEndSpaces(x: seq<char>, w: seq<char>)
    requires AllSpace(w)
    ensures TrimEnd(x + w) == TrimEnd(x)
  {
    if w != [] {
      var w' := w[..|w| - 1];
      assert IsSpace((x + w)[|x + w| - 1]);
      assert (x + w)[..|x + w| - 1] == x + w';
      TrimEndSpaces(x, w');
    } else {
      assert x + w == x;
    }
  }

  lemma {:induction false} SkipSpaceAppend(s: seq<char>, w: seq<char>)
    ensures SkipSpace(s + w) == if SkipSpace(s) == [] then SkipSpace(w) else SkipSpace(s) + w
  {
    if s != [] {
      assert (s + w)[1..] == s[1..] + w;
      if IsSpace(s[0]) {
        SkipSpaceAppend(s[1..], w);
      }
    } else {
      assert s + w == w;
    }
  }

  lemma TrimPadding(w1: seq<char>, s: seq<char>, w2: seq<char>)
    requires AllSpace(w1) && AllSpace(w2)
    ensures Trim(w1 + s + w2) == Trim(s)
  {
    SkipSpaceAppend(w1, s + w2);
    assert SkipSpace(w1) == [] by {
      SkipSpaces(w1, []);
      assert w1 + [] == w1;
    }
    assert w1 + s + w2 == w1 + (s + w2);
    SkipSpaceAppend(s, w2);
    if SkipSpace(s) == [] {
      SkipSpaces(w2, []);
      assert w2 + [] == w2;
    } else {
      TrimEndSpaces(SkipSpace(s), w2);
    }
  }

  /** The line is trimmed first, so whitespace around it makes no difference. */
  lemma Padding(w1: seq<char>, s: seq<char>, w2: seq<char>)
    requires AllSpace(w1) && AllSpace(w2)
    ensures Parse(w1 + s + w2) == Parse(s)
  {
    TrimPadding(w1, s, w2);
  }

  /** Whitespace-only input, the empty line included, is rejected: at least one operand is needed. */
  lemma EmptyInput(s: seq<char>)
    requires AllSpace(s)
    ensures Parse(s) == None
  {
    SkipSpaces(s, []);
    assert s + [] == s;
  }

  lemma TrimNoop(s: seq<char>)
    requires Framed(s)
    ensures Trim(s) == s
  {
  }

  /** Nonempty, and neither the first nor the last character is whitespace. */
  predicate Framed(s: seq<char>) {
    |s| > 0 && !IsSpace(s[0]) && !IsSpace(s[|s| - 1])
  }

  lemma FramedJoin(x: seq<char>, mid: seq<char>, y: seq<char>)
    requires Framed(x) && Framed(y)
    ensures Framed(x + mid + y)
  {
    var s := x + mid + y;
    assert s[0] == x[0];
    assert s[|s| - 1] == y[|y| - 1];
  }

  lemma AnnFramed(a: Expr, b: Expr)
    requires Framed(Show(a)) && Framed(Show(b))
    ensures Framed(Show(Expr.Ann(a, b))) && Framed(ShowOperand(Expr.Ann(a, b)))
  {
    ShowLayout(a, b);
    FramedJoin(Show(a), " : ", Show(b));
    FramedJoin("(", Show(Expr.Ann(a, b)), ")");
  }

  lemma AddFramed(a: Expr, b: Expr)
    requires Framed(ShowOperand(a)) && Framed(ShowOperand(b))
    ensures Framed(Show(Expr.Add(a, b))) && Framed(ShowOperand(Expr.Add(a, b)))
  {
    ShowLayout(a, b);
    FramedJoin(ShowOperand(a), " + ", ShowOperand(b));
  }

  lemma IntFramed(k: Int)
    ensures Framed(IntToString(k))
  {
    var ki: int := k;
    var s := NatToString(if ki < 0 then -ki else ki);
    assert IsDigit(s[|s| - 1]);
    if ki < 0 {
      assert IntToString(k) == ['-'] + s;
    }
  }

  lemma NameFramed(x: Name)
    requires ValidName(x)
    ensures Framed(x)
  {
    assert IsIdentChar(x[|x| - 1]);
  }

  lemma TokenFramed(e: Expr)
    requires Simple(e)
    ensures Framed(Show(e)) && Framed(ShowOperand(e))
  {
    if e.IntLit? {
      IntFramed(e.value);
    } else if e.Var? {
      NameFramed(e.name);
    }
  }

  /** A displayed term neither starts nor ends with whitespace, in parentheses or not. */
  lemma {:induction false} ShowEnds(e: Expr)
    requires Printable(e)
    ensures Framed(Show(e)) && Framed(ShowOperand(e))
  {
    match e
    case Ann(a, b) =>
      ShowEnds(a);
      ShowEnds(b);
      AnnFramed(a, b);
    case Add(a, b) =>
      ShowEnds(a);
      ShowEnds(b);
      AddFramed(a, b);
    case _ =>
      TokenFramed(e);
  }

  /** A name that does not start with a keyword still does not once other input follows it. */
  lemma NoKeyword(x: seq<char>, rest: seq<char>, kw: seq<char>)
    requires forall i :: 0 <= i < |kw| ==> IsAlpha(kw[i])
    requires !StartsWith(x, kw)
    requires rest == [] || !IsIdentChar(rest[0])
    ensures !StartsWith(x + rest, kw)
  {
    if |x| < |kw| <= |x + rest| {
      assert (x + rest)[|x|] == rest[0];
    }
  }

  lemma GroupNone(s: seq<char>)
    requires s == [] || s[0] != '('
    ensures ParseGroup(s) == None
    ensures ParseAtom(s) == ParseToken(s)
  {
  }

  /** Every keyword starts with `I`, `T` or `s`. */
  lemma KeywordNone(s: seq<char>)
    requires s == [] || (s[0] != 'I' && s[0] != 'T' && s[0] != 's')
    ensures ParseKeyword(s) == None
  {
    if |s| >= 3 {
      assert s[..3][0] == s[0];
    }
    if |s| >= 4 {
      assert s[..4][0] == s[0];
    }
    if |s| >= 7 {
      assert s[..7][0] == s[0];
    }
  }

  /** Without a sign or a digit in front there is no integer. */
  lemma I64None(s: seq<char>)
    requires s == [] || (!IsDigit(s[0]) && s[0] != '-' && s[0] != '+')
    ensures ParseI64(s) == None
  {
  }

  /** A run of digits followed by a non-digit is read up to the non-digit. */
  lemma DigitPrefix(digits: seq<char>, rest: seq<char>)
    requires AllDigits(digits)
    requires rest == [] || !IsDigit(rest[0])
    ensures DigitRun(digits + rest) == |digits|
    ensures (digits + rest)[..|digits|] == digits && (digits + rest)[|digits|..] == rest
  {
    DigitRunOfDigits(digits, rest);
  }

  /** nom's `i64` on an unsigned digit run, leading zeros included. */
  lemma I64Digits(digits: seq<char>, rest: seq<char>)
    requires Numeral(digits)
    requires rest == [] || !IsDigit(rest[0])
    ensures var v := DigitsValue(digits);
      ParseI64(digits + rest) == if v <= INT_MAX then Some((v, rest)) else None
  {
    DigitPrefix(digits, rest);
    assert (digits + rest)[0] == digits[0];
  }

  lemma SignText(c: char, digits: seq<char>, rest: seq<char>)
    ensures ([c] + digits + rest)[0] == c
    ensures ([c] + digits + rest)[1..] == digits + rest
  {
  }

  /** nom's `i64` on a sign followed by a digit run. */
  lemma I64Signed(c: char, digits: seq<char>, rest: seq<char>)
    requires c == '-' || c == '+'
    requires Numeral(digits)
    requires rest == [] || !IsDigit(rest[0])
    ensures var n: int := DigitsValue(digits); var v := if c == '-' then -n else n;
      ParseI64([c] + digits + rest) == if InInt(v) then Some((v, rest)) else None
  {
    SignText(c, digits, rest);
    DigitPrefix(digits, rest);
    SignedValue(c, [c] + digits + rest, digits, rest);
  }

  /** The value nom's `i64` gives a sign followed by a digit run. */
  lemma SignedValue(c: char, s: seq<char>, digits: seq<char>, rest: seq<char>)
    requires c == '-' || c == '+'
    requires Numeral(digits)
    requires s != [] && s[0] == c && s[1..] == digits + rest
    requires DigitRun(digits + rest) == |digits|
    requires (digits + rest)[..|digits|] == digits && (digits + rest)[|digits|..] == rest
    ensures var n: int := DigitsValue(digits); var v := if c == '-' then -n else n;
      ParseI64(s) == if InInt(v) then Some((v, rest)) else None
  {
  }

  /** nom's `u8` on a digit run, leading zeros included. */
  lemma U8Digits(digits: seq<char>, rest: seq<char>)
    requires Numeral(digits)
    requires rest == [] || !IsDigit(rest[0])
    ensures var v := DigitsValue(digits);
      ParseU8(digits + rest) == if v <= LEVEL_MAX then Some((v, rest)) else None
  {
    DigitPrefix(digits, rest);
  }

  /** What follows the `U` of a universe literal: whitespace, `(`, whitespace, digits, whitespace, `)`. */
  function LevelText(w0: seq<char>, w1: seq<char>, digits: seq<char>, w2: seq<char>): seq<char> {
    w0 + "(" + w1 + digits + w2 + ")"
  }

  lemma UniverseText(w0: seq<char>, w1: seq<char>, digits: seq<char>, w2: seq<char>, rest: seq<char>)
    requires Numeral(digits) && AllSpace(w0) && AllSpace(w2)
    ensures var r2 := ")" + rest; var r1 := digits + (w2 + r2); var t := "(" + (w1 + r1);
      var l := LevelText(w0, w1, digits, w2) + rest;
      && l == w0 + t && ("U" + LevelText(w0, w1, digits, w2) + rest) == "U" + l
      && ("U" + l)[0] == 'U' && ("U" + l)[1..] == l
      && l != [] && (l[0] == '(' || IsSpace(l[0]))
      && t[0] == '(' && t[1..] == w1 + r1
      && r1[0] == digits[0]
      && (w2 + r2)[0] == (if w2 == [] then ')' else w2[0])
      && r2[0] == ')' && r2[1..] == rest
  {
  }

  /** The universe alternative reads a level exactly when it fits in a byte; whitespace may follow `U` and stand inside the parentheses. */
  lemma UniverseDigits(w0: seq<char>, w1: seq<char>, digits: seq<char>, w2: seq<char>, rest: seq<char>)
    requires AllSpace(w0) && AllSpace(w1) && AllSpace(w2)
    requires Numeral(digits)
    ensures var v := DigitsValue(digits);
      ParseUniverse("U" + LevelText(w0, w1, digits, w2) + rest) == if v <= LEVEL_MAX then Some((v, rest)) else None
  {
    var r2 := ")" + rest;
    var r1 := digits + (w2 + r2);
    var t := "(" + (w1 + r1);
    UniverseText(w0, w1, digits, w2, rest);
    SkipSpaces(w0, t);
    SkipSpaces(w1, r1);
    U8Digits(digits, w2 + r2);
    SkipSpaces(w2, r2);
  }

  lemma TokenKeywords(rest: seq<char>)
    ensures ParseToken("Int" + rest) == Some((Expr.Int, rest))
    ensures ParseToken("Trivial" + rest) == Some((Expr.Trivial, rest))
    ensures ParseToken("sole" + rest) == Some((Expr.Sole, rest))
  {
    assert ("Int" + rest)[..3] == "Int";
    assert ("Trivial" + rest)[0] == 'T';
    assert ("Trivial" + rest)[..7] == "Trivial";
    assert ("sole" + rest)[0] == 's';
    assert ("sole" + rest)[..4] == "sole";
  }

  lemma IntText(k: Int)
    ensures var ki: int := k; ki < 0 ==> IntToString(k) == ['-'] + NatToString(-ki)
    ensures var c := IntToString(k)[0]; c != 'I' && c != 'T' && c != 's'
  {
    var ki: int := k;
    var s := IntToString(k);
    if ki < 0 {
      assert s == [s[0]] + s[1..];
    } else {
      assert IsDigit(s[0]);
    }
  }

  lemma TokenIntLit(k: Int, rest: seq<char>)
    requires rest == [] || !IsDigit(rest[0])
    ensures ParseToken(IntToString(k) + rest) == Some((Expr.IntLit(k), rest))
  {
    var s := IntToString(k) + rest;
    IntText(k);
    assert s[0] == IntToString(k)[0];
    KeywordNone(s);
    if k < 0 {
      var ki: int := k;
      I64Signed('-', NatToString(-ki), rest);
    } else {
      I64Digits(NatToString(k), rest);
    }
  }

  lemma TokenUniverse(i: Level, rest: seq<char>)
    ensures ParseToken("U(" + NatToString(i) + ")" + rest) == Some((Expr.U(i), rest))
  {
    var d := NatToString(i);
    var s := "U(" + d + ")" + rest;
    assert s == "U" + LevelText([], [], d, []) + rest;
    assert s[0] == 'U';
    KeywordNone(s);
    I64None(s);
    UniverseDigits([], [], d, [], rest);
  }

  lemma {:induction false} IdentRunOfIdent(t: seq<char>, rest: seq<char>)
    requires forall i :: 0 <= i < |t| ==> IsIdentChar(t[i])
    requires rest == [] || !IsIdentChar(rest[0])
    ensures IdentRun(t + rest) == |t|
  {
    if t != [] {
      assert (t + rest)[1..] == t[1..] + rest;
      IdentRunOfIdent(t[1..], rest);
    } else {
      assert t + rest == rest;
    }
  }

  /** The alternatives before the name fail on an identifier that does not start with a keyword. */
  lemma NameFirst(x: Name, rest: seq<char>)
    requires ValidName(x)
    requires AtomStop(rest)
    ensures ParseKeyword(x + rest) == None
    ensures ParseI64(x + rest) == None
    ensures ParseUniverse(x + rest) == None
  {
    var s := x + rest;
    assert s[0] == x[0];
    NoKeyword(x, rest, "Int");
    NoKeyword(x, rest, "Trivial");
    NoKeyword(x, rest, "sole");
    I64None(s);
    if |x| == 1 {
      assert s[1..] == rest;
    } else {
      assert s[1..][0] == x[1];
    }
  }

  /** An identifier is read up to the first character that cannot continue it. */
  lemma NameRead(x: Name, rest: seq<char>)
    requires ValidName(x)
    requires AtomStop(rest)
    ensures ParseName(x + rest) == Some((x, rest))
  {
    var s := x + rest;
    assert s[0] == x[0];
    assert s[1..] == x[1..] + rest;
    IdentRunOfIdent(x[1..], rest);
    assert s[..|x|] == x && s[|x|..] == rest;
  }

  lemma TokenVar(x: Name, rest: seq<char>)
    requires ValidName(x)
    requires AtomStop(rest)
    ensures ParseToken(x + rest) == Some((Expr.Var(x), rest))
  {
    NameFirst(x, rest);
    NameRead(x, rest);
  }

  /** A token followed by input that cannot continue it is read back as itself. */
  lemma SimpleRoundTrip(o: Expr, rest: seq<char>)
    requires Simple(o)
    requires AtomStop(rest)
    ensures ParseAtom(Show(o) + rest) == Some((o, rest))
  {
    match o
    case U(i) =>
      TokenUniverse(i, rest);
      GroupNone(Show(o) + rest);
    case Int =>
      TokenKeywords(rest);
      GroupNone(Show(o) + rest);
    case Trivial =>
      TokenKeywords(rest);
      GroupNone(Show(o) + rest);
    case Sole =>
      TokenKeywords(rest);
      GroupNone(Show(o) + rest);
    case IntLit(k) =>
      TokenIntLit(k, rest);
      GroupNone(Show(o) + rest);
    case Var(x) =>
      TokenVar(x, rest);
      GroupNone(Show(o) + rest);
  }

  /** One `+` with any whitespace around it extends the chain by the operand after it. */
  lemma SepText(w1: seq<char>, w2: seq<char>, s: seq<char>)
    ensures w1 + "+" + w2 + s == w1 + ("+" + w2 + s)
    ensures ("+" + w2 + s)[0] == '+'
    ensures ("+" + w2 + s)[1..] == w2 + s
  {
  }

  lemma SepStep(acc: Expr, w1: seq<char>, w2: seq<char>, s: seq<char>, b: Expr, rest: seq<char>)
    requires AllSpace(w1) && AllSpace(w2)
    requires s == [] || !IsSpace(s[0])
    requires ParseAtom(s) == Some((b, rest))
    ensures AddTail(acc, w1 + "+" + w2 + s) == AddTail(Expr.Add(acc, b), rest)
  {
    SepText(w1, w2, s);
    SkipSpaces(w1, "+" + w2 + s);
    SkipSpaces(w2, s);
  }

  /** The parenthesised alternative, once whitespace is skipped on both sides of the inner expression. */
  lemma GroupCore(w1: seq<char>, inner: seq<char>, e: Expr, w2: seq<char>, rest: seq<char>)
    requires AllSpace(w1) && AllSpace(w2)
    requires inner != [] && !IsSpace(inner[0])
    requires ParseExpr(inner) == Some((e, w2 + (")" + rest)))
    ensures ParseGroup(['('] + (w1 + inner)) == Some((e, rest))
  {
    assert (['('] + (w1 + inner))[1..] == w1 + inner;
    SkipSpaces(w1, inner);
    SkipSpaces(w2, ")" + rest);
  }

  lemma GroupText(w1: seq<char>, body: seq<char>, w2: seq<char>, rest: seq<char>)
    ensures body + w2 + ")" + rest == body + (w2 + (")" + rest))
    ensures w2 + ")" + rest == w2 + (")" + rest)
    ensures "(" + w1 + body + w2 + ")" + rest == ['('] + (w1 + (body + (w2 + (")" + rest))))
  {
  }

  /** Parentheses, with any whitespace just inside them, around an expression. */
  lemma GroupStep(w1: seq<char>, body: seq<char>, w2: seq<char>, e: Expr, rest: seq<char>)
    requires AllSpace(w1) && AllSpace(w2)
    requires body != [] && !IsSpace(body[0])
    requires ParseExpr(body + w2 + ")" + rest) == Some((e, w2 + ")" + rest))
    ensures ParseAtom("(" + w1 + body + w2 + ")" + rest) == Some((e, rest))
  {
    var tail := w2 + (")" + rest);
    GroupText(w1, body, w2, rest);
    assert (body + tail)[0] == body[0];
    GroupCore(w1, body + tail, e, w2, rest);
  }

  lemma PlainText(body: seq<char>, rest: seq<char>)
    ensures [] + (")" + rest) == ")" + rest
    ensures "(" + body + ")" + rest == ['('] + ([] + (body + (")" + rest)))
  {
  }

  lemma GroupPlain(body: seq<char>, e: Expr, rest: seq<char>)
    requires body != [] && !IsSpace(body[0])
    requires ParseExpr(body + (")" + rest)) == Some((e, ")" + rest))
    ensures ParseAtom("(" + body + ")" + rest) == Some((e, rest))
  {
    PlainText(body, rest);
    assert (body + (")" + rest))[0] == body[0];
    GroupCore([], body + (")" + rest), e, [], rest);
  }

  lemma AddStart(s: seq<char>, a: Expr, rest: seq<char>)
    requires ParseAtom(s) == Some((a, rest))
    ensures ParseAdd(s) == Some(AddTail(a, rest))
  {
  }

  /** A chain ends where no `+` follows. */
  lemma AddStop(acc: Expr, rest: seq<char>)
    requires SkipSpace(rest) == [] || SkipSpace(rest)[0] != '+'
    ensures AddTail(acc, rest) == (acc, rest)
  {
  }

  lemma {:induction false} OperandRoundTrip(o: Expr, rest: seq<char>)
    requires Simple(o) || Grouped(o)
    requires AtomStop(rest)
    ensures ParseAtom(ShowOperand(o) + rest) == Some((o, rest))
    decreases o, 3
  {
    if Grouped(o) {
      ShowEnds(o);
      ExprRoundTrip(o, ")" + rest);
      GroupPlain(Show(o), o, rest);
    } else {
      SimpleRoundTrip(o, rest);
    }
  }

  lemma PlusText(x: seq<char>, y: seq<char>, rest: seq<char>)
    ensures (x + " + " + y) + rest == x + (" + " + (y + rest))
  {
  }

  lemma ShowAddText(a: Expr, b: Expr, rest: seq<char>)
    ensures Show(Expr.Add(a, b)) + rest == ShowOperand(a) + (" + " + (ShowOperand(b) + rest))
  {
    ShowLayout(a, b);
    PlusText(ShowOperand(a), ShowOperand(b), rest);
  }

  /** A chain read from `x` continues across ` + ` and the operand after it. */
  lemma SepExtend(x: seq<char>, sb: seq<char>, a: Expr, b: Expr, rest: seq<char>)
    requires sb == [] || !IsSpace(sb[0])
    requires ParseAdd(x + (" + " + sb)) == Some(AddTail(a, " + " + sb))
    requires ParseAtom(sb) == Some((b, rest))
    ensures ParseAdd(x + (" + " + sb)) == Some(AddTail(Expr.Add(a, b), rest))
  {
    assert " + " + sb == " " + "+" + " " + sb;
    SepStep(a, " ", " ", sb, b, rest);
  }

  /** A displayed chain is read back operand by operand, folding each `+` to the left. */
  lemma {:induction false} ChainRoundTrip(c: Expr, rest: seq<char>)
    requires Chain(c)
    requires AtomStop(rest)
    ensures ParseAdd(Show(c) + rest) == Some(AddTail(c, rest))
    decreases c, 1
  {
    match c
    case Add(a, b) =>
      ShowEnds(b);
      var sb := ShowOperand(b) + rest;
      var r1 := " + " + sb;
      if Chain(a) {
        ChainRoundTrip(a, r1);
      } else {
        OperandRoundTrip(a, r1);
        AddStart(ShowOperand(a) + r1, a, r1);
      }
      OperandRoundTrip(b, rest);
      SepExtend(ShowOperand(a), sb, a, b, rest);
      ShowAddText(a, b, rest);
    case _ =>
      SimpleRoundTrip(c, rest);
      AddStart(Show(c) + rest, c, rest);
  }

  lemma ShowAnnText(a: Expr, b: Expr, rest: seq<char>)
    ensures Show(Expr.Ann(a, b)) + rest == Show(a) + (" : " + (Show(b) + rest))
  {
  }

  /** `:` with a chain after it makes an annotation. */
  lemma ColonStep(x: seq<char>, w1: seq<char>, w2: seq<char>, y: seq<char>, a: Expr, b: Expr, rest: seq<char>)
    requires AllSpace(w1) && AllSpace(w2)
    requires y == [] || !IsSpace(y[0])
    requires ParseAdd(x + (w1 + ":" + w2 + y)) == Some((a, w1 + ":" + w2 + y))
    requires ParseAdd(y) == Some((b, rest))
    ensures ParseExpr(x + (w1 + ":" + w2 + y)) == Some((Expr.Ann(a, b), rest))
  {
    assert w1 + ":" + w2 + y == w1 + (":" + w2 + y);
    SkipSpaces(w1, ":" + w2 + y);
    assert (":" + w2 + y)[1..] == w2 + y;
    SkipSpaces(w2, y);
  }

  /** An expression ends where neither `+` nor `:` follows. */
  lemma ExprEnd(s: seq<char>, e: Expr, rest: seq<char>)
    requires ExprStop(rest)
    requires ParseAdd(s) == Some(AddTail(e, rest))
    ensures ParseExpr(s) == Some((e, rest))
  {
    AddStop(e, rest);
  }

  lemma {:induction false} ExprRoundTrip(e: Expr, rest: seq<char>)
    requires Printable(e)
    requires ExprStop(rest)
    ensures ParseExpr(Show(e) + rest) == Some((e, rest))
    decreases e, 2
  {
    if e.Ann? {
      var a, b := e.term, e.ty;
      ShowEnds(b);
      ChainBeforeColon(a, Show(b) + rest);
      ChainRoundTrip(b, rest);
      AddStop(b, rest);
      ColonPlain(Show(a), Show(b) + rest, a, b, rest);
      ShowAnnText(a, b, rest);
    } else {
      ChainRoundTrip(e, rest);
      ExprEnd(Show(e) + rest, e, rest);
    }
  }

  /** Parsing the display of a printable term gives the term back. */
  lemma ParseShow(e: Expr)
    requires Printable(e)
    ensures Parse(Show(e)) == Some(e)
  {
    ShowEnds(e);
    TrimNoop(Show(e));
    assert Show(e) + [] == Show(e);
    ExprRoundTrip(e, []);
  }

  /** A line with nothing to trim is accepted exactly when one expression covers all of it. */
  lemma WholeLine(s: seq<char>, e: Expr, rest: seq<char>)
    requires Framed(s)
    requires ParseExpr(s) == Some((e, rest))
    ensures Parse(s) == if rest == [] then Some(e) else None
  {
    TrimNoop(s);
  }

  /** A term displayed like a printable one is read back as the printable one. */
  lemma SameDisplay(d: Expr, e: Expr)
    requires Printable(d)
    requires Show(e) == Show(d)
    ensures Parse(Show(e)) == Some(d)
  {
    ParseShow(d);
  }

  /**
   * Sums fold to the left, so a right-nested sum is read back left-nested.
   * The operands are any chains or annotations on the left, and tokens or
   * annotations (printed in parentheses) on the right.
   */
  lemma LeftFold(a: Expr, b: Expr, c: Expr)
    requires Printable(a)
    requires Simple(b) || Grouped(b)
    requires Simple(c) || Grouped(c)
    ensures Parse(Show(Expr.Add(Expr.Add(a, b), c))) == Some(Expr.Add(Expr.Add(a, b), c))
    ensures Parse(Show(Expr.Add(a, Expr.Add(b, c)))) == Some(Expr.Add(Expr.Add(a, b), c))
  {
    var l, r := Expr.Add(Expr.Add(a, b), c), Expr.Add(a, Expr.Add(b, c));
    assert Chain(Expr.Add(a, b));
    assert Printable(l);
    ShowForgetsRightNesting(a, b, c);
    SameDisplay(l, l);
    SameDisplay(l, r);
  }

  /** ` : ` cannot continue a token or a chain. */
  lemma ColonAhead(t: seq<char>)
    ensures SkipSpace(" : " + t) == ": " + t
    ensures AtomStop(" : " + t)
  {
    assert " : " + t == " " + (": " + t);
    SkipSpaces(" ", ": " + t);
  }

  /** A chain stops in front of ` : `. */
  lemma ChainBeforeColon(a: Expr, t: seq<char>)
    requires Chain(a)
    ensures ParseAdd(Show(a) + (" : " + t)) == Some((a, " : " + t))
    decreases a, 2
  {
    ColonAhead(t);
    ChainRoundTrip(a, " : " + t);
    AddStop(a, " : " + t);
  }

  /** ColonStep with one space on each side of the colon. */
  lemma ColonPlain(x: seq<char>, y: seq<char>, a: Expr, b: Expr, rest: seq<char>)
    requires y == [] || !IsSpace(y[0])
    requires ParseAdd(x + (" : " + y)) == Some((a, " : " + y))
    requires ParseAdd(y) == Some((b, rest))
    ensures ParseExpr(x + (" : " + y)) == Some((Expr.Ann(a, b), rest))
  {
    assert " : " + y == " " + ":" + " " + y;
    ColonStep(x, " ", " ", y, a, b, rest);
  }

  /** After one annotation the parser stops in front of a second ` : `. */
  lemma ColonChains(a: Expr, b: Expr, c: Expr)
    requires Chain(a) && Chain(b) && Chain(c)
    ensures ParseExpr(Show(a) + (" : " + (Show(b) + (" : " + Show(c))))) == Some((Expr.Ann(a, b), " : " + Show(c)))
  {
    var y := Show(b) + (" : " + Show(c));
    ShowEnds(b);
    ChainBeforeColon(a, y);
    ChainBeforeColon(b, Show(c));
    ColonPlain(Show(a), y, a, b, " : " + Show(c));
  }

  lemma ColonNest(x: seq<char>, y: seq<char>, z: seq<char>)
    ensures (x + " : " + y) + " : " + z == x + (" : " + (y + (" : " + z)))
    ensures x + " : " + (y + " : " + z) == x + (" : " + (y + (" : " + z)))
  {
  }

  lemma ShowAnnAnnText(a: Expr, b: Expr, c: Expr)
    ensures Show(Expr.Ann(Expr.Ann(a, b), c)) == Show(a) + (" : " + (Show(b) + (" : " + Show(c))))
  {
    var ab := Expr.Ann(a, b);
    assert Show(ab) == Show(a) + " : " + Show(b);
    assert Show(Expr.Ann(ab, c)) == Show(ab) + " : " + Show(c);
    ColonNest(Show(a), Show(b), Show(c));
  }

  lemma ShowAnnAnnText'(a: Expr, b: Expr, c: Expr)
    ensures Show(Expr.Ann(a, Expr.Ann(b, c))) == Show(a) + (" : " + (Show(b) + (" : " + Show(c))))
  {
    var bc := Expr.Ann(b, c);
    assert Show(bc) == Show(b) + " : " + Show(c);
    assert Show(Expr.Ann(a, bc)) == Show(a) + " : " + Show(bc);
    ColonNest(Show(a), Show(b), Show(c));
  }

  lemma FramedAround(x: seq<char>, m: seq<char>, y: seq<char>)
    requires Framed(x) && Framed(y)
    ensures Framed(x + (m + y))
  {
    var s := x + (m + y);
    assert s[0] == x[0];
    assert s[|s| - 1] == y[|y| - 1];
  }

  /** The line `a : b : c` is rejected. */
  lemma TwoColonsFramed(a: Expr, b: Expr, c: Expr)
    requires Chain(a) && Chain(b) && Chain(c)
    ensures Framed(Show(a) + (" : " + (Show(b) + (" : " + Show(c)))))
  {
    ShowEnds(a);
    ShowEnds(b);
    ShowEnds(c);
    FramedAround(Show(b), " : ", Show(c));
    FramedAround(Show(a), " : ", Show(b) + (" : " + Show(c)));
  }

  lemma TwoColons(a: Expr, b: Expr, c: Expr)
    requires Chain(a) && Chain(b) && Chain(c)
    ensures Parse(Show(a) + (" : " + (Show(b) + (" : " + Show(c))))) == None
  {
    TwoColonsFramed(a, b, c);
    ColonChains(a, b, c);
    WholeLine(Show(a) + (" : " + (Show(b) + (" : " + Show(c)))), Expr.Ann(a, b), " : " + Show(c));
  }

  /**
   * At most one `:` is read: the display of a nested annotation, which
   * has two, is rejected whichever way it nests.
   */
  lemma SecondColon(a: Expr, b: Expr, c: Expr)
    requires Chain(a) && Chain(b) && Chain(c)
    ensures Parse(Show(Expr.Ann(Expr.Ann(a, b), c))) == None
    ensures Parse(Show(Expr.Ann(a, Expr.Ann(b, c)))) == None
  {
    TwoColons(a, b, c);
    ShowAnnAnnText(a, b, c);
    ShowAnnAnnText'(a, b, c);
  }

  /** A trimmed line made of one token, followed by nothing or by input that cannot continue an expression. */
  lemma TokenLine(s: seq<char>, e: Expr, rest: seq<char>)
    requires Framed(s) && s[0] != '('
    requires ParseToken(s) == Some((e, rest))
    requires SkipSpace(rest) == [] || (SkipSpace(rest)[0] != '+' && SkipSpace(rest)[0] != ':')
    ensures Parse(s) == if rest == [] then Some(e) else None
  {
    GroupNone(s);
    AddStop(e, rest);
    WholeLine(s, e, rest);
  }

  /** A trimmed line on which no token can be read is rejected. */
  lemma NoTokenLine(s: seq<char>)
    requires Framed(s) && s[0] != '('
    requires ParseToken(s) == None
    ensures Parse(s) == None
  {
    GroupNone(s);
    TrimNoop(s);
    assert ParseAdd(s) == None;
  }

  /** Parsing the display of a term followed by a stray `)` fails: all input must be read. */
  lemma TrailingInput(e: Expr)
    requires Printable(e)
    ensures Parse(Show(e) + ")") == None
  {
    ShowEnds(e);
    FramedAround(Show(e), [], ")");
    assert [] + ")" == ")";
    ExprRoundTrip(e, ")");
    WholeLine(Show(e) + ")", e, ")");
  }

  /** A keyword is read as a keyword even when it is the start of a longer identifier, which then fails. */
  lemma KeywordPrefix(rest: seq<char>)
    requires |rest| > 0 && IsIdentChar(rest[0]) && !IsSpace(rest[|rest| - 1])
    ensures Parse("Int" + rest) == None
    ensures Parse("Trivial" + rest) == None
    ensures Parse("sole" + rest) == None
  {
    TokenKeywords(rest);
    TokenLine("Int" + rest, Expr.Int, rest);
    TokenLine("Trivial" + rest, Expr.Trivial, rest);
    TokenLine("sole" + rest, Expr.Sole, rest);
  }

  /** `U` without a level is a variable, not a universe. */
  lemma BareU()
    ensures Parse("U") == Some(Expr.Var("U"))
  {
    assert ValidName("U");
    assert Show(Expr.Var("U")) == "U";
    ParseShow(Expr.Var("U"));
  }

  /** After `U`, a character that cannot continue a name ends it. */
  lemma NameBeforeParen(t: seq<char>)
    requires t != [] && !IsIdentChar(t[0])
    ensures ParseName("U" + t) == Some(("U", t))
  {
    assert ("U" + t)[1..] == t;
    assert ("U" + t)[..1] == "U";
  }

  /** A level above 255 is not a universe literal; the `U` in front of it is then read as a variable. */
  lemma LevelTooLarge(w0: seq<char>, w1: seq<char>, digits: seq<char>, w2: seq<char>, rest: seq<char>)
    requires AllSpace(w0) && AllSpace(w1) && AllSpace(w2)
    requires Numeral(digits) && DigitsValue(digits) > LEVEL_MAX
    ensures ParseToken("U" + LevelText(w0, w1, digits, w2) + rest) ==
      Some((Expr.Var("U"), LevelText(w0, w1, digits, w2) + rest))
  {
    var l := LevelText(w0, w1, digits, w2) + rest;
    UniverseText(w0, w1, digits, w2, rest);
    KeywordNone("U" + l);
    I64None("U" + l);
    UniverseDigits(w0, w1, digits, w2, rest);
    NameBeforeParen(l);
  }

  /** A whole-line universe literal is framed and starts with `U`. */
  lemma LevelFramed(w0: seq<char>, w1: seq<char>, digits: seq<char>, w2: seq<char>)
    ensures var l := LevelText(w0, w1, digits, w2); var s := "U" + l;
      && Framed(s) && s[0] == 'U' && s + [] == s && l + [] == l
  {
    var s := "U" + LevelText(w0, w1, digits, w2);
    assert s[|s| - 1] == ')';
  }

  /** Whitespace after the `U` of a universe literal leads to its parenthesis. */
  lemma LevelAhead(w0: seq<char>, w1: seq<char>, digits: seq<char>, w2: seq<char>)
    requires AllSpace(w0)
    ensures var l := LevelText(w0, w1, digits, w2);
      SkipSpace(l) != [] && SkipSpace(l)[0] == '('
  {
    var t := "(" + w1 + digits + w2 + ")";
    assert LevelText(w0, w1, digits, w2) == w0 + t;
    SkipSpaces(w0, t);
  }

  /** A whole-line universe literal is framed, and whitespace after its `U` leads to the parenthesis. */
  lemma LevelLine(w0: seq<char>, w1: seq<char>, digits: seq<char>, w2: seq<char>)
    requires AllSpace(w0)
    ensures var l := LevelText(w0, w1, digits, w2); var s := "U" + l;
      && Framed(s) && s[0] == 'U' && s + [] == s && l + [] == l
      && SkipSpace(l) != [] && SkipSpace(l)[0] == '('
  {
    LevelFramed(w0, w1, digits, w2);
    LevelAhead(w0, w1, digits, w2);
  }

  lemma LevelTooLargeLine(w0: seq<char>, w1: seq<char>, digits: seq<char>, w2: seq<char>)
    requires AllSpace(w0) && AllSpace(w1) && AllSpace(w2)
    requires Numeral(digits) && DigitsValue(digits) > LEVEL_MAX
    ensures Parse("U" + LevelText(w0, w1, digits, w2)) == None
  {
    var l := LevelText(w0, w1, digits, w2);
    LevelLine(w0, w1, digits, w2);
    LevelTooLarge(w0, w1, digits, w2, []);
    TokenLine("U" + l, Expr.Var("U"), l);
  }

  /** A universe literal is accepted exactly when its level fits in a byte, with any whitespace after `U` and inside the parentheses. */
  lemma LevelRange(w0: seq<char>, w1: seq<char>, digits: seq<char>, w2: seq<char>)
    requires AllSpace(w0) && AllSpace(w1) && AllSpace(w2)
    requires Numeral(digits)
    ensures var v := DigitsValue(digits);
      Parse("U" + LevelText(w0, w1, digits, w2)) == if v <= LEVEL_MAX then Some(Expr.U(v)) else None
  {
    var v := DigitsValue(digits);
    var s := "U" + LevelText(w0, w1, digits, w2);
    if v <= LEVEL_MAX {
      LevelLine(w0, w1, digits, w2);
      KeywordNone(s);
      I64None(s);
      UniverseDigits(w0, w1, digits, w2, []);
      TokenLine(s, Expr.U(v), []);
    } else {
      LevelTooLargeLine(w0, w1, digits, w2);
    }
  }

  /** nom's `i64` on a sign (none, `-` or `+`) and a run of digits. */
  lemma I64Literal(sign: seq<char>, digits: seq<char>, rest: seq<char>)
    requires sign == [] || sign == "-" || sign == "+"
    requires Numeral(digits)
    requires rest == [] || !IsDigit(rest[0])
    ensures var n: int := DigitsValue(digits); var v := if sign == "-" then -n else n;
      ParseI64(sign + digits + rest) == if InInt(v) then Some((v, rest)) else None
  {
    if sign == [] {
      assert sign + digits + rest == digits + rest;
      I64Digits(digits, rest);
    } else {
      assert sign == [sign[0]];
      I64Signed(sign[0], digits, rest);
    }
  }

  /** No alternative reads input that starts with neither a letter, `_` nor `(` and is not an integer. */
  lemma NoToken(s: seq<char>)
    requires s != [] && !IsIdentStart(s[0])
    requires ParseI64(s) == None
    ensures ParseToken(s) == None
  {
    KeywordNone(s);
  }

  /** A sign and a digit run make a framed line that does not start with a parenthesis. */
  lemma SignedFramed(sign: seq<char>, digits: seq<char>)
    requires sign == [] || sign == "-" || sign == "+"
    requires Numeral(digits)
    ensures var s := sign + digits;
      Framed(s) && (s[0] == '-' || s[0] == '+' || IsDigit(s[0]))
  {
    assert IsDigit(digits[|digits| - 1]);
    if sign == [] {
      assert sign + digits == digits;
    } else {
      FramedAround(sign, [], digits);
      assert sign + ([] + digits) == sign + digits;
    }
  }

  /** A decimal literal within range is read as an integer. */
  lemma IntInRange(sign: seq<char>, digits: seq<char>, v: int)
    requires sign == [] || sign == "-" || sign == "+"
    requires Numeral(digits) && InInt(v)
    requires ParseI64(sign + digits + []) == Some((v, []))
    ensures Parse(sign + digits) == Some(Expr.IntLit(v))
  {
    var s := sign + digits;
    SignedFramed(sign, digits);
    assert s + [] == s;
    KeywordNone(s);
    TokenLine(s, Expr.IntLit(v), []);
  }

  /** A decimal literal out of range is no token at all. */
  lemma IntOutOfRange(sign: seq<char>, digits: seq<char>)
    requires sign == [] || sign == "-" || sign == "+"
    requires Numeral(digits)
    requires ParseI64(sign + digits + []) == None
    ensures Parse(sign + digits) == None
  {
    var s := sign + digits;
    SignedFramed(sign, digits);
    assert s + [] == s;
    NoToken(s);
    NoTokenLine(s);
  }

  /** A decimal literal, leading zeros allowed, is accepted exactly when it fits in 64 signed bits; `+` and `-` may precede it. */
  lemma IntRange(sign: seq<char>, digits: seq<char>)
    requires sign == [] || sign == "-" || sign == "+"
    requires Numeral(digits)
    ensures var n: int := DigitsValue(digits); var v := if sign == "-" then -n else n;
      Parse(sign + digits) == if InInt(v) then Some(Expr.IntLit(v)) else None
  {
    var n: int := DigitsValue(digits);
    var v := if sign == "-" then -n else n;
    I64Literal(sign, digits, []);
    if InInt(v) {
      IntInRange(sign, digits, v);
    } else {
      IntOutOfRange(sign, digits);
    }
  }

  /** Whitespace, then an operator: the operator is what comes next, and no token continues into it. */
  lemma OperatorAhead(w1: seq<char>, op: seq<char>, y: seq<char>)
    requires AllSpace(w1)
    requires op == "+" || op == ":"
    ensures SkipSpace(w1 + op + y) == op + y
    ensures AtomStop(w1 + op + y)
  {
    assert w1 + op + y == w1 + (op + y);
    SkipSpaces(w1, op + y);
    if w1 != [] {
      assert (w1 + op + y)[0] == w1[0];
    }
  }

  /** A one-token operand read from the whole input. */
  lemma SimpleAlone(o: Expr)
    requires Simple(o)
    ensures ParseAtom(Show(o)) == Some((o, []))
  {
    assert Show(o) + [] == Show(o);
    SimpleRoundTrip(o, []);
  }

  lemma SpacedPlusExpr(a: Expr, w1: seq<char>, w2: seq<char>, b: Expr)
    requires Simple(a) && Simple(b)
    requires AllSpace(w1) && AllSpace(w2)
    ensures ParseExpr(Show(a) + (w1 + "+" + w2 + Show(b))) == Some((Expr.Add(a, b), []))
  {
    ShowEnds(b);
    var r := w1 + "+" + w2 + Show(b);
    assert r == w1 + "+" + (w2 + Show(b));
    OperatorAhead(w1, "+", w2 + Show(b));
    SimpleRoundTrip(a, r);
    AddStart(Show(a) + r, a, r);
    SimpleAlone(b);
    SepStep(a, w1, w2, Show(b), b, []);
    ExprEnd(Show(a) + r, Expr.Add(a, b), []);
  }

  /** Any whitespace, none included, may surround `+`. */
  lemma SpacedPlus(a: Expr, w1: seq<char>, w2: seq<char>, b: Expr)
    requires Simple(a) && Simple(b)
    requires AllSpace(w1) && AllSpace(w2)
    ensures Parse(Show(a) + w1 + "+" + w2 + Show(b)) == Some(Expr.Add(a, b))
  {
    ShowEnds(a);
    ShowEnds(b);
    var m := w1 + "+" + w2;
    FramedAround(Show(a), m, Show(b));
    assert Show(a) + w1 + "+" + w2 + Show(b) == Show(a) + (m + Show(b));
    SpacedPlusExpr(a, w1, w2, b);
    WholeLine(Show(a) + (m + Show(b)), Expr.Add(a, b), []);
  }

  lemma SpacedColonExpr(a: Expr, w1: seq<char>, w2: seq<char>, b: Expr)
    requires Simple(a) && Simple(b)
    requires AllSpace(w1) && AllSpace(w2)
    ensures ParseExpr(Show(a) + (w1 + ":" + w2 + Show(b))) == Some((Expr.Ann(a, b), []))
  {
    ShowEnds(b);
    var r := w1 + ":" + w2 + Show(b);
    assert r == w1 + ":" + (w2 + Show(b));
    OperatorAhead(w1, ":", w2 + Show(b));
    SimpleRoundTrip(a, r);
    AddStart(Show(a) + r, a, r);
    AddStop(a, r);
    SimpleAlone(b);
    AddStart(Show(b), b, []);
    ColonStep(Show(a), w1, w2, Show(b), a, b, []);
  }

  /** Any whitespace, none included, may surround `:`. */
  lemma SpacedColon(a: Expr, w1: seq<char>, w2: seq<char>, b: Expr)
    requires Simple(a) && Simple(b)
    requires AllSpace(w1) && AllSpace(w2)
    ensures Parse(Show(a) + w1 + ":" + w2 + Show(b)) == Some(Expr.Ann(a, b))
  {
    ShowEnds(a);
    ShowEnds(b);
    var m := w1 + ":" + w2;
    FramedAround(Show(a), m, Show(b));
    assert Show(a) + w1 + ":" + w2 + Show(b) == Show(a) + (m + Show(b));
    SpacedColonExpr(a, w1, w2, b);
    WholeLine(Show(a) + (m + Show(b)), Expr.Ann(a, b), []);
  }

  lemma GroupSpaced(w1: seq<char>, e: Expr, w2: seq<char>)
    requires Printable(e)
    requires AllSpace(w1) && AllSpace(w2)
    ensures ParseAtom("(" + w1 + Show(e) + w2 + ")") == Some((e, []))
  {
    ShowEnds(e);
    assert ExprStop(w2 + ")") by {
      SkipSpaces(w2, ")");
    }
    ExprRoundTrip(e, w2 + ")");
    assert Show(e) + w2 + ")" + [] == Show(e) + (w2 + ")");
    assert w2 + ")" + [] == w2 + ")";
    GroupStep(w1, Show(e), w2, e, []);
    assert "(" + w1 + Show(e) + w2 + ")" + [] == "(" + w1 + Show(e) + w2 + ")";
  }

  /** Any whitespace, none included, may stand just inside parentheses, which leave no trace in the term. */
  lemma SpacedParens(w1: seq<char>, e: Expr, w2: seq<char>)
    requires Printable(e)
    requires AllSpace(w1) && AllSpace(w2)
    ensures Parse("(" + w1 + Show(e) + w2 + ")") == Some(e)
  {
    var s := "(" + w1 + Show(e) + w2 + ")";
    GroupSpaced(w1, e, w2);
    AddStart(s, e, []);
    ExprEnd(s, e, []);
    assert s[0] == '(' && s[|s| - 1] == ')';
    WholeLine(s, e, []);
  }
}
