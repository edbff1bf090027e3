/**
 * Rust's unsigned integer types and the operators on them that the
 * interpreter uses, written out over Dafny's unbounded integers:
 * bitwise AND and OR bit by bit, shifts as multiplication and division by
 * powers of two, and the `overflowing_*` methods with their wrap-around.
 */
module Bytes {

  newtype u8 = x: int | 0 <= x < 0x100
  newtype u16 = x: int | 0 <= x < 0x1_0000

  function Pow2(k: nat): (p: nat)
    ensures p >= 1
  {
    if k == 0 then 1 else 2 * Pow2(k - 1)
  }

  /** Bitwise AND (`a & b`), one bit at a time from the least significant end. */
  function BitAnd(a: nat, b: nat): (r: nat)
    ensures r <= a && r <= b
  {
    if a == 0 || b == 0 then 0
    else 2 * BitAnd(a / 2, b / 2) + (if a % 2 == 1 && b % 2 == 1 then 1 else 0)
  }

  /** Bitwise OR (`a | b`), one bit at a time from the least significant end. */
  function BitOr(a: nat, b: nat): (r: nat)
    ensures a <= r <= a + b && b <= r
  {
    if a == 0 then b
    else if b == 0 then a
    else 2 * BitOr(a / 2, b / 2) + (if a % 2 == 1 || b % 2 == 1 then 1 else 0)
  }

  /** `a & b` on two bytes is again a byte. */
  function And8(a: u8, b: u8): (r: u8)
    ensures r <= a && r <= b
  {
    BitAnd(a as nat, b as nat) as u8
  }

  /** `a << k` on a u16: the bits shifted past bit 15 are lost. */
  function Shl16(a: u16, k: nat): u16
    requires k < 16
  {
    ((a as int * Pow2(k)) % 0x1_0000) as u16
  }

  /** `a.overflowing_add(b)` on u8: the wrapped sum, and whether it wrapped. */
  function OverflowingAdd8(a: u8, b: u8): (r: (u8, bool))
    ensures r.0 as int + (if r.1 then 0x100 else 0) == a as int + b as int
  {
    (((a as int + b as int) % 0x100) as u8, a as int + b as int >= 0x100)
  }

  /** `a.overflowing_add(b)` on u16: the wrapped sum, and whether it wrapped. */
  function OverflowingAdd16(a: u16, b: u16): (r: (u16, bool))
    ensures r.0 as int + (if r.1 then 0x1_0000 else 0) == a as int + b as int
  {
    (((a as int + b as int) % 0x1_0000) as u16, a as int + b as int >= 0x1_0000)
  }

  /** `a >> k`: `k` halvings. */
  function Shr(a: nat, k: nat): (r: nat)
    ensures r <= a
  {
    if k == 0 then a else Shr(a / 2, k - 1)
  }

  /**
   * `a.overflowing_shr(n)` on u8. Rust shifts by `n` modulo the bit width
   * and reports as "overflow" only that `n` was at least the bit width;
   * whatever bits fall off the end are not reported.
   */
  function OverflowingShr8(a: u8, n: nat): (r: (u8, bool))
    ensures r.1 <==> n >= 8
    ensures r.0 as int == a as int / Pow2(n % 8)
  {
    ShrIsDivision(a as nat, n % 8);
    (Shr(a as nat, n % 8) as u8, n >= 8)
  }

  /** `a.overflowing_shl(n)` on u8, with the same reading of "overflow". */
  function OverflowingShl8(a: u8, n: nat): (r: (u8, bool))
    ensures r.1 <==> n >= 8
    ensures r.0 as int == (a as int * Pow2(n % 8)) % 0x100
  {
    (((a as int * Pow2(n % 8)) % 0x100) as u8, n >= 8)
  }

  lemma Pow2Small()
    ensures Pow2(1) == 2 && Pow2(4) == 16 && Pow2(8) == 256 && Pow2(12) == 4096
  {
  }

  // ---------------------------------------------------------------------
  // Arithmetic facts the bit-level lemmas rest on.

  lemma MulMono(d: int, x: int, y: int)
    requires d > 0 && x <= y
    ensures d * x <= d * y
  {
  }

  lemma DivModUnique(a: int, d: int, q: int, r: int)
    requires d > 0 && 0 <= r < d && a == d * q + r
    ensures a / d == q && a % d == r
  {
    var q', r' := a / d, a % d;
    assert a == d * q' + r';
    if q' > q {
      assert d * q' >= d * (q + 1) by { MulMono(d, q + 1, q'); }
      assert false;
    } else if q' < q {
      assert d * q >= d * (q' + 1) by { MulMono(d, q' + 1, q); }
      assert false;
    }
  }

  lemma ModHalf(a: nat, m: nat)
    requires m >= 1
    ensures a % (2 * m) == 2 * ((a / 2) % m) + a % 2
  {
    var q := a / 2;
    var t, s := q / m, q % m;
    assert q == m * t + s;
    assert a == 2 * m * t + (2 * s + a % 2);
    DivModUnique(a, 2 * m, t, 2 * s + a % 2);
  }

  /** Halving, then dividing by m, is dividing by 2m. */
  lemma DivHalf(a: nat, m: nat)
    requires m >= 1
    ensures (a / 2) / m == a / (2 * m)
  {
    var q := a / 2;
    var t, s := q / m, q % m;
    assert q == m * t + s;
    assert a == 2 * m * t + (2 * s + a % 2);
    DivModUnique(a, 2 * m, t, 2 * s + a % 2);
  }

  /** `a >> k` is division by 2^k. */
  lemma {:induction false} ShrIsDivision(a: nat, k: nat)
    ensures Shr(a, k) == a / Pow2(k)
  {
    if k > 0 {
      ShrIsDivision(a / 2, k - 1);
      DivHalf(a, Pow2(k - 1));
    }
  }

  // ---------------------------------------------------------------------
  // What masking and combining do to numbers.

  /** `&` is commutative. */
  lemma {:induction false} BitAndCommutes(a: nat, b: nat)
    ensures BitAnd(a, b) == BitAnd(b, a)
    decreases a
  {
    if a != 0 && b != 0 {
      BitAndCommutes(a / 2, b / 2);
    }
  }

  /** One step of `BitAnd`, also when an operand is zero. */
  lemma BitAndUnfold(a: nat, b: nat)
    ensures BitAnd(a, b) == 2 * BitAnd(a / 2, b / 2) + (if a % 2 == 1 && b % 2 == 1 then 1 else 0)
  {
    if a == 0 || b == 0 {
      assert a / 2 == 0 || b / 2 == 0;
    }
  }

  /** Masking with `2^k - 1` keeps exactly the low `k` bits. */
  lemma {:induction false} BitAndLowMask(a: nat, k: nat)
    ensures BitAnd(a, Pow2(k) - 1) == a % Pow2(k)
  {
    if k == 0 {
    } else if a == 0 {
    } else {
      var m := Pow2(k - 1);
      assert (Pow2(k) - 1) / 2 == m - 1;
      assert (Pow2(k) - 1) % 2 == 1;
      BitAndUnfold(a, Pow2(k) - 1);
      BitAndLowMask(a / 2, k - 1);
      ModHalf(a, m);
    }
  }

  /** Masking with 0xF keeps the low nibble. */
  lemma BitAndLowNibble(a: nat)
    ensures BitAnd(a, 0xF) == a % 16
  {
    BitAndLowMask(a, 4);
    assert Pow2(4) == 16;
  }

  /** Masking a byte with 0xF0 clears its low nibble. */
  lemma BitAndHighNibble(a: nat)
    requires a < 0x100
    ensures BitAnd(a, 0xF0) == 16 * (a / 16)
  {
    var a1 := a / 2;
    var a2 := a1 / 2;
    var a3 := a2 / 2;
    var a4 := a3 / 2;
    BitAndLowNibble(a4);
    assert a4 % 16 == a4;
    BitAndEven(a3, 0x1E, a4);
    BitAndEven(a2, 0x3C, 2 * a4);
    BitAndEven(a1, 0x78, 4 * a4);
    BitAndEven(a, 0xF0, 8 * a4);
  }

  /** Against an even mask, the lowest bit of `a` drops out. */
  lemma BitAndEven(a: nat, b: nat, v: nat)
    requires b % 2 == 0 && BitAnd(a / 2, b / 2) == v
    ensures BitAnd(a, b) == 2 * v
  {
    BitAndUnfold(a, b);
  }

  /** OR-ing a value into bits that are all zero is addition. */
  lemma {:induction false} BitOrDisjoint(a: nat, b: nat, k: nat)
    requires b < Pow2(k)
    ensures BitOr(a * Pow2(k), b) == a * Pow2(k) + b
  {
    if k == 0 {
    } else if a == 0 {
    } else if b == 0 {
    } else {
      var m := Pow2(k - 1);
      assert a * Pow2(k) == 2 * (a * m);
      assert (a * Pow2(k)) / 2 == a * m;
      assert (a * Pow2(k)) % 2 == 0;
      BitOrDisjoint(a, b / 2, k - 1);
    }
  }
}
