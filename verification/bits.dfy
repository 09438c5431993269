/** Bitwise operators on naturals, defined bit by bit, and the arithmetic that the
    shifts, masks and negations of the cache amount to. */
module Bits {
  import opened Machine

  function Pow2(k: nat): (r: nat)
    ensures r > 0
  {
    if k == 0 then 1 else 2 * Pow2(k - 1)
  }

  function And(a: nat, b: nat): nat {
    if a == 0 || b == 0 then 0
    else (if a % 2 == 1 && b % 2 == 1 then 1 else 0) + 2 * And(a / 2, b / 2)
  }

  function Or(a: nat, b: nat): nat {
    if a == 0 then b
    else if b == 0 then a
    else (if a % 2 == 0 && b % 2 == 0 then 0 else 1) + 2 * Or(a / 2, b / 2)
  }

  function Xor(a: nat, b: nat): nat {
    if a == 0 then b
    else if b == 0 then a
    else (if a % 2 == b % 2 then 0 else 1) + 2 * Xor(a / 2, b / 2)
  }

  /** Two's complement negation of a 64-bit word. */
  function WrappingNeg(x: u64): u64 {
    if x == 0 then 0 else U64_MAX + 1 - x
  }

  /** Masking with 2^k - 1 is reduction modulo 2^k. */
  lemma {:induction false} MaskIsMod(a: nat, k: nat)
    ensures And(a, Pow2(k) - 1) == a % Pow2(k)
  {
    if k == 0 {
    } else {
      var p := Pow2(k - 1);
      calc {
        And(a, 2 * p - 1);
        { AndOddMask(a, p); }
        a % 2 + 2 * And(a / 2, p - 1);
        { MaskIsMod(a / 2, k - 1); }
        a % 2 + 2 * ((a / 2) % p);
        { HalfMod(a, p); }
        a % (2 * p);
      }
    }
  }

  lemma AndOddMask(a: nat, p: nat)
    requires p > 0
    ensures And(a, 2 * p - 1) == a % 2 + 2 * And(a / 2, p - 1)
  {
    var m := 2 * p - 1;
    assert m / 2 == p - 1 && m % 2 == 1;
  }

  lemma HalfMod(a: nat, p: nat)
    requires p > 0
    ensures a % (2 * p) == a % 2 + 2 * ((a / 2) % p)
  {
    var h := a / 2;
    var q, r := h / p, h % p;
    assert h == q * p + r;
    assert a == (2 * p) * q + (2 * r + a % 2);
    DivModUnique(a, 2 * p, q, 2 * r + a % 2);
  }

  lemma DivModUnique(a: int, d: int, q: int, r: int)
    requires d > 0 && a == d * q + r && 0 <= r < d
    ensures a / d == q && a % d == r
  {
    var q', r' := a / d, a % d;
    assert a == d * q' + r';
    assert d * (q' - q) == r - r';
    MulAtLeast(d, q' - q);
  }

  lemma MulAtLeast(d: int, k: int)
    requires d > 0
    ensures k >= 1 ==> d * k >= d
    ensures k <= -1 ==> d * k <= -d
  {
    assert d * k == d + d * (k - 1);
    assert d * k == -d + d * (k + 1);
  }

  /** Or-ing a value below 2^k into a word shifted left by k is addition. */
  lemma {:induction false} OrIsAdd(a: nat, b: nat, k: nat)
    requires b < Pow2(k)
    ensures Or(a * Pow2(k), b) == a * Pow2(k) + b
  {
    if k == 0 {
      assert a * 1 == a;
    } else {
      var h := a * Pow2(k - 1);
      DoubleShift(a, Pow2(k - 1));
      calc {
        Or(2 * h, b);
        { OrEven(h, b); }
        b % 2 + 2 * Or(h, b / 2);
        { OrIsAdd(a, b / 2, k - 1); }
        b % 2 + 2 * (h + b / 2);
        2 * h + b;
      }
    }
  }

  lemma DoubleShift(a: nat, p: nat)
    ensures a * (2 * p) == 2 * (a * p)
  {
  }

  lemma {:induction false} OrEven(h: nat, b: nat)
    ensures Or(2 * h, b) == b % 2 + 2 * Or(h, b / 2)
  {
    assert (2 * h) / 2 == h && (2 * h) % 2 == 0;
  }

  /** Exclusive or stays within the width of its operands. */
  lemma {:induction false} XorBound(a: nat, b: nat, k: nat)
    requires a < Pow2(k) && b < Pow2(k)
    ensures Xor(a, b) < Pow2(k)
  {
    if a != 0 && b != 0 && k > 0 {
      XorBound(a / 2, b / 2, k - 1);
    }
  }

  lemma Pow2Values()
    ensures Pow2(12) == 4096
    ensures Pow2(32) == 0x1_0000_0000
    ensures Pow2(64) == U64_MAX + 1
  {
    assert Pow2(8) == 256;
    assert Pow2(12) == 4096;
    assert Pow2(16) == 0x1_0000;
    assert Pow2(24) == 0x100_0000;
    assert Pow2(32) == 0x1_0000_0000;
    assert Pow2(40) == 0x100_0000_0000;
    assert Pow2(48) == 0x1_0000_0000_0000;
    assert Pow2(56) == 0x100_0000_0000_0000;
    assert Pow2(64) == U64_MAX + 1;
  }

  /** `x.wrapping_neg() & 4095` is the distance from x up to the next multiple of 4096. */
  lemma NegMaskIsPadding(x: u64)
    ensures And(WrappingNeg(x), 4095) == (4096 - x % 4096) % 4096
  {
    Pow2Values();
    MaskIsMod(WrappingNeg(x), 12);
    if x != 0 {
      var q, r := x / 4096, x % 4096;
      assert U64_MAX + 1 == 4096 * 0x10_0000_0000_0000;
      var y := WrappingNeg(x);
      if r == 0 {
        DivModUnique(y, 4096, 0x10_0000_0000_0000 - q, 0);
      } else {
        DivModUnique(y, 4096, 0x10_0000_0000_0000 - q - 1, 4096 - r);
      }
    }
  }

  predicate IsPowerOfTwo(n: nat) {
    n == 1 || (n > 1 && n % 2 == 0 && IsPowerOfTwo(n / 2))
  }
}
