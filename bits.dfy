/** Integer bit arithmetic as the firmware's C code performs it.

    The firmware keeps protocol bytes in C `int` variables, which may also hold the
    error value -1.  A C test `(1 << k) & d` looks at bit k of the two's-complement
    representation of d; with Dafny's Euclidean division that bit is
    `(d / 2^k) % 2`, which is what `BitSet` computes one halving at a time.
 */
module Bits {

  /** The C `uint8_t` type. */
  newtype uint8 = x: int | 0 <= x < 256

  function Pow2(k: nat): (r: nat)
    ensures r >= 1
  {
    if k == 0 then 1 else 2 * Pow2(k - 1)
  }

  /** Bit k of d in two's complement, i.e. the C expression `(1 << k) & d` is non-zero. */
  predicate BitSet(d: int, k: nat)
    decreases k
  {
    if k == 0 then d % 2 == 1 else BitSet(d / 2, k - 1)
  }

  /** The number whose binary digits, least significant first, are bs. */
  function FromBits(bs: seq<bool>): (r: nat)
    ensures r < Pow2(|bs|)
  {
    if bs == [] then 0 else (if bs[0] then 1 else 0) + 2 * FromBits(bs[1..])
  }

  /** The n lowest binary digits of d, least significant first. */
  function BitsOf(d: int, n: nat): (bs: seq<bool>)
    ensures |bs| == n
    ensures forall k :: 0 <= k < n ==> bs[k] == BitSet(d, k)
    decreases n
  {
    if n == 0 then [] else [d % 2 == 1] + BitsOf(d / 2, n - 1)
  }

  /** Conversion of a C `int` to `uint8_t`: the value modulo 256. */
  function Truncate8(d: int): (r: uint8)
    ensures 0 <= d < 256 ==> r as int == d
    ensures (d - r as int) % 256 == 0
  {
    (d % 256) as uint8
  }

  /** Digit k of FromBits(bs) is bs[k]: the LSB-first reading is exact. */
  lemma {:induction false} FromBitsBit(bs: seq<bool>, k: nat)
    requires k < |bs|
    ensures BitSet(FromBits(bs), k) == bs[k]
  {
    var b := if bs[0] then 1 else 0;
    var rest := FromBits(bs[1..]);
    assert FromBits(bs) == b + 2 * rest;
    assert (b + 2 * rest) % 2 == b;
    assert (b + 2 * rest) / 2 == rest;
    if k > 0 {
      FromBitsBit(bs[1..], k - 1);
    }
  }

  /** Reading the n low digits of a number below 2^n back gives the number. */
  lemma {:induction false} FromBitsOfBits(d: int, n: nat)
    requires 0 <= d < Pow2(n)
    ensures FromBits(BitsOf(d, n)) == d
  {
    if n > 0 {
      var bs := BitsOf(d, n);
      assert bs[1..] == BitsOf(d / 2, n - 1);
      FromBitsOfBits(d / 2, n - 1);
    }
  }

  /** Appending a most significant digit adds its weight. */
  lemma {:induction false} FromBitsAppend(bs: seq<bool>, b: bool)
    ensures FromBits(bs + [b]) == FromBits(bs) + (if b then Pow2(|bs|) else 0)
  {
    if bs != [] {
      assert (bs + [b])[1..] == bs[1..] + [b];
      FromBitsAppend(bs[1..], b);
    } else {
      assert ([] + [b])[1..] == [];
    }
  }

  /** Setting bit i of the value of the first i bits gives the value of the first i + 1. */
  lemma FromBitsPrefix(bs: seq<bool>, i: nat)
    requires i < |bs|
    ensures FromBits(bs[..i + 1]) == FromBits(bs[..i]) + (if bs[i] then Pow2(i) else 0)
  {
    assert bs[..i + 1] == bs[..i] + [bs[i]];
    FromBitsAppend(bs[..i], bs[i]);
  }

  /** Halving k times and then once more is dividing by 2^(k+1). */
  lemma HalveDiv(d: int, k: nat)
    ensures (d / 2) / Pow2(k) == d / Pow2(k + 1)
  {
    var p := Pow2(k);
    var q, r := (d / 2) / p, (d / 2) % p;
    assert d / 2 == p * q + r && 0 <= r < p;
    assert d == 2 * p * q + (2 * r + d % 2);
    assert 0 <= 2 * r + d % 2 < 2 * p;
    DivUnique(d, 2 * p, q, 2 * r + d % 2);
  }

  lemma DivUnique(d: int, m: int, q: int, r: int)
    requires m > 0 && d == m * q + r && 0 <= r < m
    ensures d / m == q
  {
    var q', r' := d / m, d % m;
    assert m * q' + r' == d;
    assert m * (q - q') == r' - r;
    if q' != q {
      var n := q - q';
      MulAway(m, n);
    }
  }

  /** A non-zero multiple of m is at least m away from 0. */
  lemma MulAway(m: int, n: int)
    requires m > 0 && n != 0
    ensures m * n >= m || m * n <= -m
  {
    if n > 0 {
      MulPos(m, n);
    } else {
      MulPos(m, -n);
      assert m * n == -(m * -n);
    }
  }

  lemma {:induction false} MulPos(m: int, n: int)
    requires m > 0 && n > 0
    ensures m * n >= m
    decreases n
  {
    if n > 1 {
      MulPos(m, n - 1);
      assert m * n == m * (n - 1) + m;
    }
  }

  /** BitSet is bit k of the binary expansion: the digit of d / 2^k. */
  lemma {:induction false} BitSetDigit(d: int, k: nat)
    ensures BitSet(d, k) == ((d / Pow2(k)) % 2 == 1)
    decreases k
  {
    if k > 0 {
      BitSetDigit(d / 2, k - 1);
      HalveDiv(d, k - 1);
    }
  }

  /** No bit of 0 is set. */
  lemma {:induction false} ZeroNoBits(k: nat)
    ensures !BitSet(0, k)
  {
    if k > 0 {
      ZeroNoBits(k - 1);
    }
  }

  /** `d |= 1 << i` on a d below 2^i is `d + 2^i`: the sum has exactly the bits of d and bit i. */
  lemma {:induction false} OrIsAdd(d: int, i: nat, k: nat)
    requires 0 <= d < Pow2(i)
    ensures BitSet(d + Pow2(i), k) == (BitSet(d, k) || k == i)
    decreases i
  {
    if i == 0 {
      assert d == 0;
      ZeroNoBits(k);
      if k > 0 {
        assert (d + 1) / 2 == 0;
        ZeroNoBits(k - 1);
      }
    } else {
      var p := Pow2(i - 1);
      assert (d + 2 * p) % 2 == d % 2;
      assert (d + 2 * p) / 2 == d / 2 + p;
      if k > 0 {
        OrIsAdd(d / 2, i - 1, k - 1);
      }
    }
  }

  /** Every bit of the C value -1 is set. */
  lemma {:induction false} MinusOneAllBits(k: nat)
    ensures BitSet(-1, k)
  {
    if k > 0 {
      assert -1 / 2 == -1;
      MinusOneAllBits(k - 1);
    }
  }
}
