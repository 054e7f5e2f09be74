/** C's `int64_t`: bounds, wrap-around, and the integer helpers of the C runtime. */
module Machine {
  import opened Options

  const MIN: int := -0x8000_0000_0000_0000
  const MAX: int := 0x7fff_ffff_ffff_ffff
  const TWO64: int := 0x1_0000_0000_0000_0000

  type int64 = x: int | MIN <= x <= MAX

  /** The signed value of `x` reduced modulo 2^64, as a cast through `uint64_t` computes it. */
  function Wrap(x: int): (r: int64)
    ensures (x - r) % TWO64 == 0
    ensures MIN <= x <= MAX ==> r == x
  {
    (x - MIN) % TWO64 + MIN
  }

  // ----- C's truncating division and Lua's flooring division -----

  function Abs(x: int): int { if x < 0 then -x else x }

  /** C's `a / b`. */
  function TruncDiv(a: int, b: int): int
    requires b != 0
  {
    var q := Abs(a) / Abs(b);
    if (a < 0) == (b < 0) then q else -q
  }

  /** C's `a % b`. */
  function TruncMod(a: int, b: int): int
    requires b != 0
  {
    if a < 0 then -(Abs(a) % Abs(b)) else Abs(a) % Abs(b)
  }

  /** The mathematical floor of `a / b` (section 3.4.1 of the Lua 5.4 Reference Manual). */
  function FloorDiv(a: int, b: int): (q: int)
    requires b != 0
  {
    if b > 0 then a / b else (-a) / (-b)
  }

  /** `(a ^ b) < 0` on `int64_t`: the sign bits differ. */
  predicate SignsDiffer(a: int, b: int) { (a < 0) != (b < 0) }

  /** FlFloorDivQuotient: the emitted quotient, built from truncating C operators. */
  function FloorQuotient(a: int64, b: int64): int64
    requires b != 0
  {
    if b == -1 then Wrap(0 - a)
    else
      TruncDivFits(a, b);
      var q := TruncDiv(a, b);
      if SignsDiffer(a, b) && TruncMod(a, b) != 0 then q - 1 else q
  }

  /** FlModInt after its zero test. */
  function ModInt(a: int64, b: int64): int64
    requires b != 0
  {
    if b == -1 then 0
    else
      ModRange(a, b);
      a - b * FloorQuotient(a, b)
  }

  lemma AbsDivMod(a: int, b: int)
    requires b != 0
    ensures 0 <= Abs(a) && 0 < Abs(b)
    ensures Abs(a) == Abs(b) * (Abs(a) / Abs(b)) + Abs(a) % Abs(b)
    ensures 0 <= Abs(a) % Abs(b) < Abs(b)
    ensures 0 <= Abs(a) / Abs(b) <= Abs(a)
  {
    var x: int, y: int := Abs(a), Abs(b);
    DivModPos(x, y);
  }

  lemma DivModPos(x: int, y: int)
    requires 0 <= x && 0 < y
    ensures x == y * (x / y) + x % y && 0 <= x % y < y && 0 <= x / y <= x
  {
    var q := x / y;
    assert q >= 0;
    MulGrows(y, q);
  }

  lemma MulGrows(y: int, q: int)
    requires 0 < y && 0 <= q
    ensures q <= y * q
    decreases y
  {
    if y > 1 { MulGrows(y - 1, q); assert y * q == (y - 1) * q + q; }
  }

  lemma TruncDivFits(a: int64, b: int64)
    requires b != 0 && b != -1
    ensures MIN <= TruncDiv(a, b) <= MAX
    ensures SignsDiffer(a, b) && TruncMod(a, b) != 0 ==> MIN < TruncDiv(a, b)
  {
    AbsDivMod(a, b);
    var x, y := Abs(a), Abs(b);
    if y > 1 { MulGrows(y - 1, x / y); assert y * (x / y) == (y - 1) * (x / y) + x / y; }
  }

  lemma FloorUnique(a: int, b: int, q: int)
    requires b != 0
    requires if b > 0 then 0 <= a - b * q < b else b < a - b * q <= 0
    ensures q == FloorDiv(a, b)
  {
    var n, d := if b > 0 then a else -a, Abs(b);
    assert FloorDiv(a, b) == n / d;
    assert n == d * (n / d) + n % d && 0 <= n % d < d;
    assert 0 <= n - d * q < d;
    var k := q - n / d;
    assert d * k == d * q - d * (n / d);
    if k >= 1 { MulGrows(k, d); } else if k <= -1 { MulGrows(0 - k, d); }
  }

  lemma FloorBounds(a: int, b: int)
    requires b != 0
    ensures var m := a - b * FloorDiv(a, b); if b > 0 then 0 <= m < b else b < m <= 0
  {
    var n, d := if b > 0 then a else -a, Abs(b);
    assert n == d * (n / d) + n % d;
  }

  /** The emitted integer floor division is the mathematical floor, wrapped only at MIN // -1. */
  lemma FloorQuotientIsFloor(a: int64, b: int64)
    requires b != 0
    ensures FloorQuotient(a, b) == Wrap(FloorDiv(a, b))
    ensures !(a == MIN && b == -1) ==> FloorQuotient(a, b) == FloorDiv(a, b)
  {
    if b == -1 {
      FloorUnique(a, b, 0 - a);
    } else {
      TruncDivFits(a, b);
      AbsDivMod(a, b);
      TruncFloor(a, b);
    }
  }

  lemma TruncFloor(a: int, b: int)
    requires b != 0
    ensures FloorDiv(a, b) == TruncDiv(a, b) - (if SignsDiffer(a, b) && TruncMod(a, b) != 0 then 1 else 0)
  {
    AbsDivMod(a, b);
    var x: int, y: int := Abs(a), Abs(b);
    var q: int, m: int := x / y, x % y;
    var p := y * q;
    MulSigns(y, q, p);
    if (a < 0) == (b < 0) {
      FloorAt(a, b, q, if b > 0 then p else -p);
    } else if m == 0 {
      FloorAt(a, b, -q, if b > 0 then -p else p);
    } else {
      FloorAt(a, b, -(q + 1), if b > 0 then -(p + y) else p + y);
    }
  }

  lemma MulSigns(y: int, q: int, p: int)
    requires p == y * q
    ensures (-y) * q == -p && y * (-q) == -p && (-y) * (-q) == p
    ensures y * -(q + 1) == -(p + y) && (-y) * -(q + 1) == p + y
  {
    assert y * (q + 1) == p + y;
  }

  lemma FloorAt(a: int, b: int, f: int, p: int)
    requires b != 0 && p == b * f
    requires if b > 0 then 0 <= a - p < b else b < a - p <= 0
    ensures FloorDiv(a, b) == f
  {
    FloorUnique(a, b, f);
  }

  lemma ModRange(a: int64, b: int64)
    requires b != 0 && b != -1
    ensures MIN <= a - b * FloorQuotient(a, b) <= MAX
  {
    FloorQuotientIsFloor(a, b);
    FloorBounds(a, b);
  }

  /** The emitted modulo is `a - b * floor(a / b)`: it takes the sign of the divisor. */
  lemma ModIntIsFloorMod(a: int64, b: int64)
    requires b != 0
    ensures ModInt(a, b) == a - b * FloorDiv(a, b)
    ensures if b > 0 then 0 <= ModInt(a, b) < b else b < ModInt(a, b) <= 0
  {
    FloorQuotientIsFloor(a, b);
    FloorBounds(a, b);
    if b == -1 { FloorUnique(a, b, 0 - a); }
  }

  // ----- bit operations on the 64-bit pattern -----

  function Pow2(n: nat): (r: int)
    ensures r >= 1
  {
    if n == 0 then 1 else 2 * Pow2(n - 1)
  }

  /** The `uint64_t` image of an `int64_t`. */
  function Unsigned(x: int64): (u: nat)
    ensures u < TWO64
  {
    if x < 0 then x + TWO64 else x
  }

  /** FlShiftIntImpl: logical shifts; a count outside (-64, 64) gives zero, a negative count reverses. */
  function ShiftInt(a: int64, n: int64, right: bool): int64
  {
    if n >= 64 || n <= -64 then 0
    else if (n >= 0) == right then Wrap(Unsigned(a) / Pow2(Abs(n)))
    else Wrap(Unsigned(a) * Pow2(Abs(n)))
  }

  /** The `n` lowest bits of two patterns, combined place by place. */
  function Places(f: (nat, nat) -> nat, x: nat, y: nat, n: nat): nat
  {
    if n == 0 then 0 else f(x % 2, y % 2) + 2 * Places(f, x / 2, y / 2, n - 1)
  }

  function AndPlace(p: nat, q: nat): nat { if p == 1 && q == 1 then 1 else 0 }
  function OrPlace(p: nat, q: nat): nat { if p == 1 || q == 1 then 1 else 0 }
  function XorPlace(p: nat, q: nat): nat { if p != q then 1 else 0 }

  function BitAnd(a: int64, b: int64): int64 { Wrap(Places(AndPlace, Unsigned(a), Unsigned(b), 64)) }
  function BitOr(a: int64, b: int64): int64 { Wrap(Places(OrPlace, Unsigned(a), Unsigned(b), 64)) }
  function BitXor(a: int64, b: int64): int64 { Wrap(Places(XorPlace, Unsigned(a), Unsigned(b), 64)) }
  function BitNot(a: int64): int64 { -1 - a }

  // ----- IEEE doubles: exact order on the values, arithmetic left to the target -----

  datatype Ieee = NaN | NegInf | PosInf | NegZero | Fin(r: real)
  {
    predicate Ordered() { !NaN? }
    /** The value as a real; only used for finite numbers. */
    function Value(): real { if Fin? then r else 0.0 }
  }

  /** The only fact about representable values used here: from 2^52 on, every double is an integer. */
  predicate Representable(d: Ieee)
  {
    d.Fin? && (d.r >= 4503599627370496.0 || d.r <= -4503599627370496.0) ==> d.r == d.r.Floor as real
  }

  type Double = d: Ieee | Representable(d) witness NaN

  predicate Lt(a: Double, b: Double)
  {
    if a.NaN? || b.NaN? || a.PosInf? || b.NegInf? then false
    else if a.NegInf? || b.PosInf? then true
    else a.Value() < b.Value()
  }

  predicate Eq(a: Double, b: Double)
  {
    !a.NaN? && !b.NaN? && !Lt(a, b) && !Lt(b, a)
  }

  predicate Le(a: Double, b: Double) { Lt(a, b) || Eq(a, b) }

  /** The floating-point unit of the target: rounding is not interpreted. */
  datatype Fpu = Fpu(
    add: (Double, Double) -> Double, sub: (Double, Double) -> Double, mul: (Double, Double) -> Double,
    div: (Double, Double) -> Double, pow: (Double, Double) -> Double,
    floor: Double -> Double, fromInt: int64 -> Double)

  /** Negation never rounds. */
  function Negate(d: Double): Double
  {
    match d
    case NaN => NaN
    case NegInf => PosInf
    case PosInf => NegInf
    case NegZero => Fin(0.0)
    case Fin(r) => if r == 0.0 then NegZero else NegationFits(r); Fin(-r)
  }

  lemma NegationFits(r: real)
    requires Representable(Fin(r))
    ensures Representable(Fin(-r))
  {
    if r == r.Floor as real { assert (-r).Floor == -r.Floor; }
  }

  /** FlDoubleFitsInt64: the exact integer of a double, when there is one in range. */
  function ToInt(d: Double): (r: Option<int64>)
    ensures r.Some? ==> (d.Fin? || d.NegZero?) && r.value as real == d.Value()
  {
    match d
    case NegZero => Some(0)
    case Fin(r) => if r == r.Floor as real && MIN <= r.Floor <= MAX then Some(r.Floor) else None
    case _ => None
  }

  /** The exact order of an integer and a double. */
  predicate IntLtDouble(i: int64, d: Double)
  {
    match d
    case NaN => false
    case NegInf => false
    case PosInf => true
    case _ => i as real < d.Value()
  }

  predicate DoubleLtInt(d: Double, i: int64)
  {
    match d
    case NaN => false
    case PosInf => false
    case NegInf => true
    case _ => d.Value() < i as real
  }

  /** C's `(int64_t)d` for a finite double in range: truncation toward zero. */
  function Truncate(r: real): int { if r < 0.0 then -((-r).Floor) else r.Floor }

  /** FlCompareIntDouble, branch by branch; the truncated value converts back exactly. */
  function CompareIntDouble(i: int64, d: Double): int
  {
    match d
    case NaN => 0
    case PosInf => -1
    case NegInf => 1
    case _ =>
      var r := d.Value();
      if r >= 9223372036854775808.0 then -1
      else if r < -9223372036854775808.0 then 1
      else
        var t := Truncate(r);
        if i < t then -1 else if i > t then 1
        else if r > t as real then -1 else if r < t as real then 1 else 0
  }

  /** The emitted mixed comparison decides the exact order, also where a conversion to double would round. */
  lemma CompareIntDoubleIsExact(i: int64, d: Double)
    ensures !d.NaN? ==> (CompareIntDouble(i, d) < 0 <==> IntLtDouble(i, d))
    ensures !d.NaN? ==> (CompareIntDouble(i, d) > 0 <==> DoubleLtInt(d, i))
    ensures !d.NaN? ==> (CompareIntDouble(i, d) == 0 <==> NumEq(I(i), F(d)))
  {
    if d.Fin? || d.NegZero? {
      var r := d.Value();
      assert r < 0.0 ==> Truncate(r) as real - 1.0 < r <= Truncate(r) as real;
      assert r >= 0.0 ==> Truncate(r) as real <= r < Truncate(r) as real + 1.0;
    }
  }

  /** A Lua number: the tag and the payload of a CVar, and the type and value of a native C expression. */
  datatype Num = I(i: int64) | F(f: Double)

  function ToDouble(fpu: Fpu, n: Num): Double { if n.I? then (fpu.fromInt)(n.i) else n.f }

  /** FlCmpLt on two numbers: exact, whatever the mix of tags. */
  predicate NumLt(a: Num, b: Num)
  {
    match (a, b)
    case (I(i), I(j)) => i < j
    case (I(i), F(g)) => IntLtDouble(i, g)
    case (F(f), I(j)) => DoubleLtInt(f, j)
    case (F(f), F(g)) => Lt(f, g)
  }

  predicate NumEq(a: Num, b: Num)
  {
    match (a, b)
    case (I(i), I(j)) => i == j
    case (I(i), F(g)) => !g.NaN? && !IntLtDouble(i, g) && !DoubleLtInt(g, i)
    case (F(f), I(j)) => !f.NaN? && !IntLtDouble(j, f) && !DoubleLtInt(f, j)
    case (F(f), F(g)) => Eq(f, g)
  }

  predicate NumLe(a: Num, b: Num) { NumLt(a, b) || NumEq(a, b) }
}
