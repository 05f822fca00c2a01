/**
 * Non-negative integers seen as bit strings: the shifts, masks, XOR and
 * population count that the SimHash code applies to Python's unbounded
 * `int`, each defined by halving so that every proof stays linear.
 */
module Bits {

  /** `1 << n`. */
  function Pow2(n: nat): (r: nat)
    ensures r >= 1
  {
    if n == 0 then 1 else 2 * Pow2(n - 1)
  }

  /** `v >> s`. */
  function Shr(v: nat, s: nat): nat {
    if s == 0 then v else Shr(v / 2, s - 1)
  }

  /** `(v >> i) & 1 == 1`: bit `i` of `v` is set. */
  predicate Bit(v: nat, i: nat) {
    Shr(v, i) % 2 == 1
  }

  /** `v & ((1 << w) - 1)`: the low `w` bits of `v`. */
  function LowBits(v: nat, w: nat): nat {
    if w == 0 then 0 else v % 2 + 2 * LowBits(v / 2, w - 1)
  }

  /** `a ^ b`. */
  function Xor(a: nat, b: nat): nat
    decreases a + b
  {
    if a == 0 && b == 0 then 0
    else (if a % 2 != b % 2 then 1 else 0) + 2 * Xor(a / 2, b / 2)
  }

  /** `bin(v).count('1')`. */
  function PopCount(v: nat): nat {
    if v == 0 then 0 else v % 2 + PopCount(v / 2)
  }

  /** The number of the low `n` bit positions at which `a` and `b` differ. */
  function DiffBits(a: nat, b: nat, n: nat): nat {
    if n == 0 then 0
    else (if a % 2 != b % 2 then 1 else 0) + DiffBits(a / 2, b / 2, n - 1)
  }

  /** Shifting one bit further looks at the halved value. */
  lemma BitSucc(v: nat, i: nat)
    ensures Bit(v, i + 1) == Bit(v / 2, i)
  {
  }

  /** Two shifts compose: `(v >> s) >> t == v >> (s + t)`. */
  lemma {:induction false} ShrShr(v: nat, s: nat, t: nat)
    ensures Shr(Shr(v, s), t) == Shr(v, s + t)
    decreases s
  {
    if s > 0 {
      ShrShr(v / 2, s - 1, t);
    }
  }

  /** Bit `j` of `v >> s` is bit `s + j` of `v`. */
  lemma BitOfShr(v: nat, s: nat, j: nat)
    ensures Bit(Shr(v, s), j) == Bit(v, s + j)
  {
    ShrShr(v, s, j);
  }

  /** Every value below `2^n` is zero from bit `n` upwards. */
  lemma {:induction false} ShrBelow(v: nat, n: nat)
    requires v < Pow2(n)
    ensures Shr(v, n) == 0
    decreases n
  {
    if n > 0 {
      ShrBelow(v / 2, n - 1);
    }
  }

  /** The mask keeps exactly the bits below `w`, so the result is below `2^w`. */
  lemma {:induction false} LowBitsBits(v: nat, w: nat, i: nat)
    ensures LowBits(v, w) < Pow2(w)
    ensures Bit(LowBits(v, w), i) == (i < w && Bit(v, i))
    decreases w
  {
    if w > 0 {
      LowBitsBits(v / 2, w - 1, if i == 0 then 0 else i - 1);
      if i > 0 {
        BitSucc(LowBits(v, w), i - 1);
        BitSucc(v, i - 1);
        assert LowBits(v, w) / 2 == LowBits(v / 2, w - 1);
      }
    } else {
      ShrBelow(0, i);
    }
  }

  /** A bit of `a ^ b` is set exactly where the bits of `a` and `b` differ. */
  lemma {:induction false} XorBit(a: nat, b: nat, i: nat)
    ensures Bit(Xor(a, b), i) == (Bit(a, i) != Bit(b, i))
    decreases i
  {
    var x := Xor(a, b);
    if a == 0 && b == 0 {
      ShrBelow(0, i);
    } else {
      assert x / 2 == Xor(a / 2, b / 2);
      if i > 0 {
        XorBit(a / 2, b / 2, i - 1);
        BitSucc(x, i - 1);
        BitSucc(a, i - 1);
        BitSucc(b, i - 1);
      }
    }
  }

  /** `a ^ b` is symmetric. */
  lemma {:induction false} XorSymmetric(a: nat, b: nat)
    ensures Xor(a, b) == Xor(b, a)
    decreases a + b
  {
    if !(a == 0 && b == 0) {
      XorSymmetric(a / 2, b / 2);
    }
  }

  /** `x ^ x == 0`, and `a ^ b == 0` only when `a == b`. */
  lemma {:induction false} XorZero(a: nat, b: nat)
    ensures Xor(a, b) == 0 <==> a == b
    decreases a + b
  {
    if !(a == 0 && b == 0) {
      XorZero(a / 2, b / 2);
    }
  }

  /** The population count of `a ^ b`, for values of `n` bits, counts the differing bits. */
  lemma {:induction false} PopCountXor(a: nat, b: nat, n: nat)
    requires a < Pow2(n) && b < Pow2(n)
    ensures PopCount(Xor(a, b)) == DiffBits(a, b, n)
    decreases n
  {
    if n > 0 {
      var x := Xor(a, b);
      assert x % 2 == (if a % 2 != b % 2 then 1 else 0) && x / 2 == Xor(a / 2, b / 2);
      PopCountXor(a / 2, b / 2, n - 1);
    }
  }

  /** At most `n` of `n` positions differ. */
  lemma {:induction false} DiffBitsBound(a: nat, b: nat, n: nat)
    ensures DiffBits(a, b, n) <= n
  {
    if n > 0 {
      DiffBitsBound(a / 2, b / 2, n - 1);
    }
  }

  /** Values of `n` bits are equal exactly when no position differs. */
  lemma {:induction false} DiffBitsZero(a: nat, b: nat, n: nat)
    requires a < Pow2(n) && b < Pow2(n)
    ensures DiffBits(a, b, n) == 0 <==> a == b
  {
    if n > 0 {
      DiffBitsZero(a / 2, b / 2, n - 1);
    }
  }

  /** The count of differing positions is symmetric. */
  lemma {:induction false} DiffBitsSymmetric(a: nat, b: nat, n: nat)
    ensures DiffBits(a, b, n) == DiffBits(b, a, n)
  {
    if n > 0 {
      DiffBitsSymmetric(a / 2, b / 2, n - 1);
    }
  }

  /** Differing positions obey the triangle inequality. */
  lemma {:induction false} DiffBitsTriangle(a: nat, b: nat, c: nat, n: nat)
    ensures DiffBits(a, c, n) <= DiffBits(a, b, n) + DiffBits(b, c, n)
  {
    if n > 0 {
      DiffBitsTriangle(a / 2, b / 2, c / 2, n - 1);
    }
  }

  /** Counting `m + n` positions is counting the low `m` and then the `n` after them. */
  lemma {:induction false} DiffBitsSplit(a: nat, b: nat, m: nat, n: nat)
    ensures DiffBits(a, b, m + n) == DiffBits(a, b, m) + DiffBits(Shr(a, m), Shr(b, m), n)
    decreases m
  {
    if m > 0 {
      DiffBitsSplit(a / 2, b / 2, m - 1, n);
    }
  }

  /** Looking at more positions never finds fewer differences. */
  lemma DiffBitsMonotone(a: nat, b: nat, m: nat, n: nat)
    requires m <= n
    ensures DiffBits(a, b, m) <= DiffBits(a, b, n)
  {
    DiffBitsSplit(a, b, m, n - m);
  }

  /** Values that agree on their low `w` bits have the same low `w` bits. */
  lemma {:induction false} DiffBitsZeroLowBits(a: nat, b: nat, w: nat)
    requires DiffBits(a, b, w) == 0
    ensures LowBits(a, w) == LowBits(b, w)
  {
    if w > 0 {
      DiffBitsZeroLowBits(a / 2, b / 2, w - 1);
    }
  }
}
