/** What the bit operations and shifts compute, place by place on the 64-bit pattern. */
module Bits {
  import opened Machine

  /** `x` without its `k` lowest bits. */
  function Drop(x: nat, k: nat): nat
  {
    QuotientIsNat(x, Pow2(k));
    x / Pow2(k)
  }

  lemma QuotientIsNat(x: nat, d: int)
    requires d > 0
    ensures x / d >= 0
  {
    var q := x / d;
    assert x == d * q + x % d;
    if q < 0 { MulLe(d, q, -1); }
  }

  /** The bit of weight 2^i. */
  function BitOf(x: nat, i: nat): nat { Drop(x, i) % 2 }

  lemma HalfOfPow2(m: nat, i: nat)
    requires i > 0
    ensures m / Pow2(i) == (m / 2) / Pow2(i - 1)
  {
    DivDiv(m, 2, Pow2(i - 1));
  }

  lemma DivDiv(m: nat, a: nat, b: nat)
    requires a > 0 && b > 0
    ensures a * b > 0 && m / (a * b) == (m / a) / b
  {
    var q, r := m / a, m % a;
    Compose(m, a, b, q, r, q / b, q % b);
    DivUnique(m, a * b, q / b, a * (q % b) + r);
  }

  lemma Compose(m: nat, a: nat, b: nat, q: nat, r: nat, s: nat, t: nat)
    requires m == a * q + r && r < a && q == b * s + t && t < b
    ensures m == (a * b) * s + (a * t + r) && a * b > 0 && 0 <= a * t + r < a * b
  {
    Regroup(a, b, s, t);
    MulLe(a, 0, t);
    MulLe(a, t + 1, b);
    OneMore(a, t);
  }

  lemma Regroup(a: nat, b: nat, s: nat, t: nat)
    ensures a * (b * s + t) == (a * b) * s + a * t
  {
    assert a * (b * s) == (a * b) * s;
  }

  lemma OneMore(a: nat, t: nat)
    ensures a * (t + 1) == a * t + a
  {
  }

  lemma MulLe(a: nat, x: int, y: int)
    requires x <= y
    ensures a * x <= a * y
  {
    assert a * (y - x) >= 0;
    assert a * y - a * x == a * (y - x);
  }

  lemma DivUnique(m: nat, d: nat, s: nat, r: nat)
    requires d > 0 && m == d * s + r && r < d
    ensures m / d == s
  {
    var q := m / d;
    assert m == d * q + m % d;
    assert d * (q + 1) == d * q + d && d * (s + 1) == d * s + d;
    if q < s { MulLe(d, q + 1, s); }
    if s < q { MulLe(d, s + 1, q); }
  }

  // ----- places -----

  lemma LowestBit(x: nat)
    ensures BitOf(x, 0) == x % 2
  {
    assert Pow2(0) == 1;
  }

  lemma HigherBit(x: nat, i: nat)
    requires i > 0
    ensures BitOf(x, i) == BitOf(x / 2, i - 1)
  {
    HalfOfPow2(x, i);
  }

  lemma {:induction false} NoBitAbove(x: nat, m: nat, i: nat)
    requires x < Pow2(m) && m <= i
    ensures BitOf(x, i) == 0
  {
    if m == 0 {
      assert x == 0 && 0 / Pow2(i) == 0;
    } else {
      HigherBit(x, i);
      NoBitAbove(x / 2, m - 1, i - 1);
    }
  }

  /** Reduction modulo 2^m keeps the lower places. */
  lemma {:induction false} BitOfMod(x: nat, m: nat, i: nat)
    requires i < m
    ensures BitOf(x % Pow2(m), i) == BitOf(x, i)
  {
    ModHalves(x, m);
    var r := x % Pow2(m);
    if i == 0 {
      LowestBit(x);
      LowestBit(r);
    } else {
      HigherBit(x, i);
      HigherBit(r, i);
      BitOfMod(x / 2, m - 1, i - 1);
    }
  }

  lemma ModHalves(x: nat, m: nat)
    requires m > 0
    ensures var r := x % Pow2(m); r % 2 == x % 2 && r / 2 == (x / 2) % Pow2(m - 1)
  {
    var p := Pow2(m - 1);
    var h := x / 2;
    QuotientIsNat(h, p);
    var q, r := h / p, h % p;
    assert h == p * q + r && 0 <= r < p;
    var t := 2 * r + x % 2;
    assert Pow2(m) == 2 * p;
    TwiceProduct(p, q);
    assert x == (2 * p) * q + t;
    DivUnique(x, 2 * p, q, t);
    RemainderIs(x, 2 * p, q, t);
  }

  lemma TwiceProduct(p: int, q: int)
    ensures 2 * (p * q) == (2 * p) * q
  {
  }

  lemma RemainderIs(x: nat, d: nat, q: nat, t: nat)
    requires d > 0 && x == d * q + t && x / d == q
    ensures x % d == t
  {
  }

  /** `x` moved up by `k` places. */
  function Raise(x: nat, k: nat): (y: nat)
    ensures y == x * Pow2(k)
  {
    if k == 0 then assert Pow2(0) == 1; x
    else
      DoubleProduct(x, Pow2(k - 1));
      2 * Raise(x, k - 1)
  }

  lemma DoubleProduct(x: int, p: int)
    ensures x * (2 * p) == 2 * (x * p)
  {
  }

  lemma {:induction false} BitOfShiftedUp(x: nat, k: nat, i: nat)
    ensures BitOf(Raise(x, k), i) == if i < k then 0 else BitOf(x, i - k)
    decreases k
  {
    if k > 0 {
      var y := Raise(x, k - 1);
      assert Raise(x, k) == 2 * y && 2 * y / 2 == y;
      if i == 0 { LowestBit(2 * y); } else { HigherBit(2 * y, i); BitOfShiftedUp(x, k - 1, i - 1); }
    }
  }

  lemma {:induction false} BitOfShiftedDown(x: nat, k: nat, i: nat)
    ensures BitOf(Drop(x, k), i) == BitOf(x, i + k)
    decreases k
  {
    if k == 0 {
      assert Drop(x, 0) == x;
    } else {
      HalfOfPow2(x, k);
      BitOfShiftedDown(x / 2, k - 1, i);
      HigherBit(x, i + k);
    }
  }

  lemma {:induction false} BitOfPlaces(f: (nat, nat) -> nat, x: nat, y: nat, n: nat, i: nat)
    requires i < n && forall p: nat, q: nat :: f(p, q) <= 1
    ensures BitOf(Places(f, x, y, n), i) == f(BitOf(x, i), BitOf(y, i))
  {
    var z := Places(f, x, y, n);
    assert f(x % 2, y % 2) <= 1;
    assert z % 2 == f(x % 2, y % 2) && z / 2 == Places(f, x / 2, y / 2, n - 1);
    if i == 0 {
      LowestBit(x);
      LowestBit(y);
      LowestBit(z);
    } else {
      HigherBit(x, i);
      HigherBit(y, i);
      HigherBit(z, i);
      BitOfPlaces(f, x / 2, y / 2, n - 1, i - 1);
    }
  }

  lemma {:induction false} BitOfComplement(x: nat, m: nat, i: nat)
    requires x < Pow2(m) && i < m
    ensures BitOf(Pow2(m) - 1 - x, i) == 1 - BitOf(x, i)
  {
    var y := Pow2(m) - 1 - x;
    assert y % 2 == 1 - x % 2 && y / 2 == Pow2(m - 1) - 1 - x / 2;
    if i == 0 {
      LowestBit(x);
      LowestBit(y);
    } else {
      HigherBit(x, i);
      HigherBit(y, i);
      BitOfComplement(x / 2, m - 1, i - 1);
    }
  }

  lemma {:induction false} SameBits(x: nat, y: nat, m: nat)
    requires x < Pow2(m) && y < Pow2(m) && forall i :: 0 <= i < m ==> BitOf(x, i) == BitOf(y, i)
    ensures x == y
  {
    if m > 0 {
      LowestBit(x);
      LowestBit(y);
      assert BitOf(x, 0) == BitOf(y, 0);
      forall i | 0 <= i < m - 1 ensures BitOf(x / 2, i) == BitOf(y / 2, i) {
        HigherBit(x, i + 1);
        HigherBit(y, i + 1);
      }
      SameBits(x / 2, y / 2, m - 1);
    }
  }

  // ----- int64_t -----

  lemma WordSize()
    ensures Pow2(64) == TWO64
  {
    assert Pow2(8) == 0x100;
    PowAdd(8, 8);
    PowAdd(16, 16);
    PowAdd(32, 32);
  }

  lemma {:induction false} PowAdd(m: nat, n: nat)
    ensures Pow2(m + n) == Pow2(m) * Pow2(n)
  {
    if m > 0 {
      PowAdd(m - 1, n);
      assert 2 * (Pow2(m - 1) * Pow2(n)) == Pow2(m) * Pow2(n);
    }
  }

  lemma UnsignedWrap(x: nat)
    ensures Unsigned(Wrap(x)) == x % TWO64
  {
    var u := Unsigned(Wrap(x));
    assert (x - u) % TWO64 == 0;
    DivUnique(x, TWO64, (x - u) / TWO64, u);
  }

  /** Bit `i` of a value, on its two's complement pattern. */
  function Bit(a: int64, i: nat): nat { BitOf(Unsigned(a), i) }

  lemma BitOfWrap(x: nat, i: nat)
    requires i < 64
    ensures Bit(Wrap(x), i) == BitOf(x, i)
  {
    UnsignedWrap(x);
    WordSize();
    BitOfMod(x, 64, i);
  }

  lemma UnsignedIsOneToOne(a: int64, b: int64)
    requires Unsigned(a) == Unsigned(b)
    ensures a == b
  {
  }

  /** A value is its 64 bits. */
  lemma BitsAreTheValue(a: int64, b: int64)
    requires forall i :: 0 <= i < 64 ==> Bit(a, i) == Bit(b, i)
    ensures a == b
  {
    var x, y := Unsigned(a), Unsigned(b);
    forall i | 0 <= i < 64 ensures BitOf(x, i) == BitOf(y, i) {
      assert Bit(a, i) == Bit(b, i);
    }
    WordSize();
    var m: nat := 64;
    SameBits(x, y, m);
    UnsignedIsOneToOne(a, b);
  }

  /** `a << n` and `a >> n`: every bit moves up by `n`, or down, what leaves the word is lost and zeros come in; a
      negative count moves the other way, and from 64 on nothing is left. */
  lemma ShiftMovesBits(a: int64, n: int64, right: bool, i: nat)
    requires i < 64
    ensures var from := if right then i + n else i - n;
            Bit(ShiftInt(a, n, right), i) == if 0 <= from < 64 then Bit(a, from) else 0
  {
    var u, k := Unsigned(a), Abs(n);
    WordSize();
    if n >= 64 || n <= -64 {
      NoBitAbove(0, 0, i);
    } else if (n >= 0) == right {
      BitOfWrap(Drop(u, k), i);
      BitOfShiftedDown(u, k, i);
      if i + k >= 64 { NoBitAbove(u, 64, i + k); }
    } else {
      BitOfWrap(Raise(u, k), i);
      BitOfShiftedUp(u, k, i);
    }
  }

  lemma AndBit(a: int64, b: int64, i: nat)
    requires i < 64
    ensures Bit(BitAnd(a, b), i) == 1 <==> Bit(a, i) == 1 && Bit(b, i) == 1
  {
    BitOfWrap(Places(AndPlace, Unsigned(a), Unsigned(b), 64), i);
    BitOfPlaces(AndPlace, Unsigned(a), Unsigned(b), 64, i);
  }

  lemma OrBit(a: int64, b: int64, i: nat)
    requires i < 64
    ensures Bit(BitOr(a, b), i) == 1 <==> Bit(a, i) == 1 || Bit(b, i) == 1
  {
    BitOfWrap(Places(OrPlace, Unsigned(a), Unsigned(b), 64), i);
    BitOfPlaces(OrPlace, Unsigned(a), Unsigned(b), 64, i);
  }

  lemma XorBit(a: int64, b: int64, i: nat)
    requires i < 64
    ensures Bit(BitXor(a, b), i) == 1 <==> Bit(a, i) != Bit(b, i)
  {
    BitOfWrap(Places(XorPlace, Unsigned(a), Unsigned(b), 64), i);
    BitOfPlaces(XorPlace, Unsigned(a), Unsigned(b), 64, i);
  }

  lemma NotBit(a: int64, i: nat)
    requires i < 64
    ensures Bit(BitNot(a), i) != Bit(a, i)
  {
    WordSize();
    assert Unsigned(BitNot(a)) == TWO64 - 1 - Unsigned(a);
    BitOfComplement(Unsigned(a), 64, i);
  }
}
