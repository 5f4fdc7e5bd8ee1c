/** Two's complement on unbounded integers: bitwise operations, 256-bit conversions, sign extension. */
module Integers {
  import opened Powers

  // ---- Bits of an integer, an infinite run of ones above a negative one -----------------

  function Bit(x: int, i: nat): (b: int)
    ensures b == 0 || b == 1
    decreases i
  {
    if i == 0 then x % 2 else Bit(x / 2, i - 1)
  }

  function Size(x: int): nat {
    if x < 0 then -x else x
  }

  function And(x: int, m: int): int
    decreases Size(m)
  {
    if m == 0 then 0 else if m == -1 then x else 2 * And(x / 2, m / 2) + x % 2 * (m % 2)
  }

  function Or(x: int, m: int): int
    decreases Size(m)
  {
    if m == 0 then x else if m == -1 then -1
    else 2 * Or(x / 2, m / 2) + if x % 2 == 1 || m % 2 == 1 then 1 else 0
  }

  function Not(x: int): int {
    -x - 1
  }

  lemma {:induction false} ZeroBit(i: nat)
    ensures Bit(0, i) == 0 && Bit(-1, i) == 1
  {
    if i > 0 {
      ZeroBit(i - 1);
    }
  }

  lemma {:induction false} HalfOf(y: int, b: int)
    requires b == 0 || b == 1
    ensures (2 * y + b) / 2 == y && (2 * y + b) % 2 == b
  {
  }

  /** The recursive definitions are the bitwise operations. */
  lemma {:induction false} BitwiseByBit(x: int, m: int, i: nat)
    ensures Bit(And(x, m), i) == Bit(x, i) * Bit(m, i)
    ensures Bit(Or(x, m), i) == (if Bit(x, i) == 1 || Bit(m, i) == 1 then 1 else 0)
    ensures Bit(Not(x), i) == 1 - Bit(x, i)
    decreases i
  {
    ZeroBit(i);
    if m != 0 && m != -1 {
      HalfOf(And(x / 2, m / 2), x % 2 * (m % 2));
      HalfOf(Or(x / 2, m / 2), if x % 2 == 1 || m % 2 == 1 then 1 else 0);
    }
    HalfOf(Not(x / 2), 1 - x % 2);
    assert Not(x) == 2 * Not(x / 2) + (1 - x % 2);
    if i > 0 {
      BitwiseByBit(x / 2, m / 2, i - 1);
    }
  }

  // ---- Masks -------------------------------------------------------------------------------

  lemma {:induction false} ModUnique(x: int, m: nat, k: int, r: int)
    requires 0 <= r < m && x == m * k + r
    ensures x % m == r && x / m == k
  {
    var k', r' := x / m, x % m;
    assert m * (k' - k) == r - r';
    Multiples(m, k' - k);
  }

  lemma {:induction false} Grows(m: nat, d: nat)
    requires d >= 1
    ensures m * d >= m
  {
    assert m * d == m + m * (d - 1);
  }

  lemma {:induction false} Multiples(m: int, d: int)
    requires m >= 0 && -m < m * d < m
    ensures d == 0
  {
    assert m * d == -(m * -d);
    if d > 0 {
      Grows(m, d);
    } else if d < 0 {
      Grows(m, -d);
    }
  }

  lemma {:induction false} ModDouble(x: int, p: nat)
    requires p >= 1
    ensures x % (2 * p) == x % 2 + 2 * (x / 2 % p)
  {
    var k, r := x / 2 / p, x / 2 % p;
    assert x == 2 * (p * k + r) + x % 2;
    assert 2 * (p * k) == 2 * p * k;
    ModUnique(x, 2 * p, k, 2 * r + x % 2);
  }

  lemma {:induction false} AndOdd(x: int, y: int)
    requires y != -1
    ensures And(x, 2 * y + 1) == 2 * And(x / 2, y) + x % 2
  {
    HalfOf(y, 1);
  }

  lemma {:induction false} AndLow(x: int, s: nat)
    ensures And(x, Pow2(s) - 1) == x % Pow2(s)
    decreases s
  {
    if s > 0 {
      var p := Pow2(s - 1);
      assert Pow2(s) == 2 * p;
      hide And, Pow2;
      AndOdd(x, p - 1);
      AndLow(x / 2, s - 1);
      ModDouble(x, p);
    }
  }

  lemma {:induction false} OrEven(x: int, y: int)
    requires y != 0
    ensures Or(x, 2 * y) == 2 * Or(x / 2, y) + x % 2
  {
    HalfOf(y, 0);
  }

  lemma {:induction false} HighStep(x: int, p: nat, h: int)
    requires p >= 1 && h == x / 2 % p - p
    ensures 2 * h + x % 2 == x % (2 * p) - 2 * p
  {
    ModDouble(x, p);
  }

  lemma {:induction false} OrHigh(x: int, s: nat)
    ensures Or(x, -Pow2(s)) == x % Pow2(s) - Pow2(s)
    decreases s
  {
    if s == 0 {
      assert Or(x, -1) == -1;
    } else {
      var p := Pow2(s - 1);
      assert Pow2(s) == 2 * p;
      hide Or, Pow2;
      OrHigh(x / 2, s - 1);
      OrEven(x, -p);
      HighStep(x, p, Or(x / 2, -p));
      assert -Pow2(s) == 2 * -p;
    }
  }

  /** The bits up to and including the one at `s`. */
  lemma {:induction false} TopBit(x: int, s: nat)
    ensures x % Pow2(s + 1) == x % Pow2(s) + Bit(x, s) * Pow2(s)
    decreases s
  {
    if s > 0 {
      TopBit(x / 2, s - 1);
      ModDouble(x, Pow2(s));
      ModDouble(x, Pow2(s - 1));
      var b := Bit(x, s);
      assert b * (2 * Pow2(s - 1)) == 2 * (b * Pow2(s - 1));
    }
  }

  // ---- Sign extension ------------------------------------------------------------------------

  function Extend(x: int, s: nat): int {
    var mask := Pow2(s) - 1;
    if Bit(x, s) == 1 then Or(x, Not(mask)) else And(x, mask)
  }

  predicate Congruent(x: int, y: int, m: nat)
    requires m >= 1
  {
    (x - y) % m == 0
  }

  lemma {:induction false} Shifted(x: int, m: nat)
    requires m >= 1
    ensures Congruent(x, x % m, m) && Congruent(x, x % m - m, m)
  {
    var k := x / m;
    assert x == m * k + x % m;
    ModUnique(m * k, m, k, 0);
    assert m * k + m == m * (k + 1);
    ModUnique(m * k + m, m, k + 1, 0);
  }

  /** The extension of `x` from bit `s` is the number in signed range congruent to it. */
  lemma {:induction false} ExtendMeaning(x: int, s: nat)
    ensures -Pow2(s) <= Extend(x, s) < Pow2(s)
    ensures Congruent(x, Extend(x, s), Pow2(s + 1))
  {
    hide And, Or, Bit;
    AndLow(x, s);
    OrHigh(x, s);
    TopBit(x, s);
    Shifted(x, Pow2(s + 1));
    assert Not(Pow2(s) - 1) == -Pow2(s);
  }

  /** ... and the only one. */
  lemma {:induction false} ExtendUnique(x: int, s: nat, y: int)
    requires -Pow2(s) <= y < Pow2(s) && Congruent(x, y, Pow2(s + 1))
    ensures y == Extend(x, s)
  {
    hide Extend;
    ExtendMeaning(x, s);
    var z := Extend(x, s);
    var m := Pow2(s + 1);
    var j, k := (x - y) / m, (x - z) / m;
    assert x - y == m * j && x - z == m * k;
    assert m * (j - k) == z - y;
    Multiples(m, j - k);
  }

  /** Extending twice is extending once, from whichever bit is lower. */
  lemma {:induction false} ExtendTwice(x: int, s: nat, t: nat)
    requires s <= t
    ensures Extend(Extend(x, s), t) == Extend(x, s)
  {
    hide Extend;
    ExtendMeaning(x, s);
    Pow2Monotone(s, t);
    assert (Extend(x, s) - Extend(x, s)) % Pow2(t + 1) == 0;
    ExtendUnique(Extend(x, s), t, Extend(x, s));
  }

  // ---- 256-bit conversions ---------------------------------------------------------------

  const TT255 := 0x80000000_00000000_00000000_00000000_00000000_00000000_00000000_00000000
  const TT256 := 0x1_00000000_00000000_00000000_00000000_00000000_00000000_00000000_00000000

  lemma {:induction false} WordBits(n: nat)
    requires n == 256
    ensures Pow2(n) == TT256 && Pow2(n - 1) == TT255
  {
    hide Pow2;
    Eight(n / 32);
    Squared(n / 32, 0x100);
    Squared(n / 16, 0x10000);
    Squared(n / 8, 0x1_00000000);
    Squared(n / 4, 0x1_00000000_00000000);
    Squared(n / 2, 0x1_00000000_00000000_00000000_00000000);
    Halved(n);
  }

  lemma {:induction false} Eight(n: nat)
    requires n == 8
    ensures Pow2(n) == 256
  {
  }

  lemma {:induction false} Halved(n: nat)
    requires n >= 1
    ensures Pow2(n) == 2 * Pow2(n - 1)
  {
  }

  lemma {:induction false} Squared(n: nat, p: int)
    requires Pow2(n) == p
    ensures Pow2(2 * n) == p * p
  {
    Pow2Sum(n, n);
  }

  function U256(x: int): int {
    And(x, TT256 - 1)
  }

  function S256(x: int): int {
    if x < TT255 then x else x - TT256
  }

  lemma {:induction false} U256IsMod(x: int)
    ensures U256(x) == x % TT256
  {
    var n := 256;
    WordBits(n);
    AndLow(x, n);
  }

  /** The unsigned form of a signed number names it, exactly in the signed 256-bit range. */
  lemma {:induction false} SignedRoundTrip(x: int)
    ensures S256(U256(x)) == x <==> -TT255 <= x < TT255
  {
    hide Pow2, U256;
    U256IsMod(x);
    var m := TT256;
    if 0 <= x < TT255 {
      ModUnique(x, m, 0, x);
    } else if -TT255 <= x < 0 {
      ModUnique(x, m, -1, x + m);
    }
  }

  /** The signed reading of an unsigned number names it, exactly in the unsigned 256-bit range. */
  lemma {:induction false} UnsignedRoundTrip(x: int)
    ensures U256(S256(x)) == x <==> 0 <= x < TT256
  {
    hide Pow2, U256;
    U256IsMod(S256(x));
    var m := TT256;
    if 0 <= x < TT255 {
      ModUnique(x, m, 0, x);
    } else if TT255 <= x < m {
      ModUnique(x - m, m, -1, x);
    }
  }

  /** A sign-extended stack word is read back as the extended number. */
  lemma {:induction false} ExtendedWord(back: nat, x: int)
    requires back <= 31
    ensures S256(U256(Extend(x, 8 * back + 7))) == Extend(x, 8 * back + 7)
  {
    hide Extend, Pow2, U256;
    ExtendMeaning(x, 8 * back + 7);
    var n := 256;
    WordBits(n);
    Pow2Monotone(8 * back + 7, n - 1);
    SignedRoundTrip(Extend(x, 8 * back + 7));
  }

  // ---- The mutable integers ----------------------------------------------------------------

  class BigInt {
    var value: int

    constructor (x: int)
      ensures value == x
    {
      value := x;
    }

    method AndWith(x: BigInt, y: BigInt)
      modifies this
      ensures value == And(old(x.value), old(y.value))
    {
      value := And(x.value, y.value);
    }

    method OrWith(x: BigInt, y: BigInt)
      modifies this
      ensures value == Or(old(x.value), old(y.value))
    {
      value := Or(x.value, y.value);
    }

    method NotOf(x: BigInt)
      modifies this
      ensures value == Not(old(x.value))
    {
      value := Not(x.value);
    }

    method SubOf(x: BigInt, y: BigInt)
      modifies this
      ensures value == old(x.value) - old(y.value)
    {
      value := x.value - y.value;
    }
  }

  /**
    Overwrites and returns its argument. The sign bit's position is computed in 64 bits; from
    2^63 on it is negative as a signed number and asking for that bit panics.
   */
  method SignExtend(back: nat, x: BigInt) returns (r: BigInt, panics: bool)
    requires back < 0x1_0000_0000_0000_0000
    modifies x
    ensures r == x && (panics <==> (8 * back + 7) % 0x1_0000_0000_0000_0000 >= 0x8000_0000_0000_0000)
    ensures !panics ==> x.value == Extend(old(x.value), (8 * back + 7) % 0x1_0000_0000_0000_0000)
    ensures panics ==> x.value == old(x.value)
  {
    hide Or, And, Bit, Pow2;
    var signBit := (back * 8 + 7) % 0x1_0000_0000_0000_0000;
    var one := new BigInt(1);
    var mask := new BigInt(Pow2(signBit));
    mask.SubOf(mask, one);
    r, panics := x, signBit >= 0x8000_0000_0000_0000;
    if panics {
      return;
    }
    if Bit(x.value, signBit) == 1 {
      mask.NotOf(mask);
      x.OrWith(x, mask);
    } else {
      x.AndWith(x, mask);
    }
  }
}
