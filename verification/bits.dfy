/**
 * Binary arithmetic on natural numbers: powers of two, bit sequences, and
 * the bitwise operators `&`, `|` and `^` restricted to the low `width` bits,
 * all defined by halving so that every fact about them is proved by
 * induction on the width.
 */
module Bits {

  /** 2 to the power `n`. */
  function Pow2(n: nat): (p: nat)
    ensures p >= 1
  {
    if n == 0 then 1 else 2 * Pow2(n - 1)
  }

  /** A truth value as the digit 0 or 1. */
  function Bit(b: bool): (d: nat)
    ensures d <= 1 && (d == 1 <==> b)
  {
    if b then 1 else 0
  }

  /** A sequence of bits, least significant first, read as a number. */
  function FromBits(bits: seq<bool>): (n: nat)
    ensures n < Pow2(|bits|)
  {
    if |bits| == 0 then 0 else Bit(bits[0]) + 2 * FromBits(bits[1..])
  }

  /** The `width` low bits of `n`, least significant first: bit k is `(n >> k) & 1`. */
  function ToBits(n: nat, width: nat): (bits: seq<bool>)
    ensures |bits| == width
  {
    if width == 0 then [] else [n % 2 == 1] + ToBits(n / 2, width - 1)
  }

  /** Reading the low bits of a number that fits in them gives the number back. */
  lemma {:induction false} FromToBits(n: nat, width: nat)
    requires n < Pow2(width)
    ensures FromBits(ToBits(n, width)) == n
  {
    if width > 0 {
      FromToBits(n / 2, width - 1);
      assert ToBits(n, width)[1..] == ToBits(n / 2, width - 1);
    }
  }

  /** Writing out the bits of a number read from bits gives the same bits. */
  lemma {:induction false} ToFromBits(bits: seq<bool>)
    ensures ToBits(FromBits(bits), |bits|) == bits
  {
    if |bits| > 0 {
      ToFromBits(bits[1..]);
      var n := FromBits(bits);
      assert n % 2 == Bit(bits[0]) && n / 2 == FromBits(bits[1..]);
      assert bits == [bits[0]] + bits[1..];
    }
  }

  /** The `width` low bits of `u & v`: a bit is set where it is set in both. */
  function AndBits(u: nat, v: nat, width: nat): (r: nat)
    ensures r < Pow2(width)
  {
    if width == 0 then 0 else Bit(u % 2 == 1 && v % 2 == 1) + 2 * AndBits(u / 2, v / 2, width - 1)
  }

  /** The `width` low bits of `u | v`: a bit is set where it is set in either. */
  function OrBits(u: nat, v: nat, width: nat): (r: nat)
    ensures r < Pow2(width)
  {
    if width == 0 then 0 else Bit(u % 2 == 1 || v % 2 == 1) + 2 * OrBits(u / 2, v / 2, width - 1)
  }

  /** The `width` low bits of `u ^ v`: a bit is set where exactly one operand has it. */
  function XorBits(u: nat, v: nat, width: nat): (r: nat)
    ensures r < Pow2(width)
  {
    if width == 0 then 0 else Bit(u % 2 != v % 2) + 2 * XorBits(u / 2, v / 2, width - 1)
  }

  /** A bit put below twice a number is its parity, and halving drops it again. */
  lemma Halves(b: nat, n: nat)
    requires b <= 1
    ensures (b + 2 * n) % 2 == b && (b + 2 * n) / 2 == n
  {
  }

  /** Bit 0 of a number is its parity. */
  lemma LowestBit(n: nat, width: nat)
    requires width > 0
    ensures ToBits(n, width)[0] == (n % 2 == 1)
  {
  }

  /** Bit k > 0 of a number is bit k - 1 of its half. */
  lemma HigherBit(n: nat, width: nat, k: nat)
    requires 0 < k < width
    ensures ToBits(n, width)[k] == ToBits(n / 2, width - 1)[k - 1]
  {
  }

  /** One halving step of `AndBits`: its parity is the low bits' result, its half the rest. */
  lemma AndBitsStep(u: nat, v: nat, width: nat)
    requires width > 0
    ensures AndBits(u, v, width) % 2 == Bit(u % 2 == 1 && v % 2 == 1)
    ensures AndBits(u, v, width) / 2 == AndBits(u / 2, v / 2, width - 1)
  {
    Halves(Bit(u % 2 == 1 && v % 2 == 1), AndBits(u / 2, v / 2, width - 1));
  }

  /** Bit 0 of `u & v`. */
  lemma AndBitsAtLowest(u: nat, v: nat, width: nat)
    requires width > 0
    ensures ToBits(AndBits(u, v, width), width)[0] == (ToBits(u, width)[0] && ToBits(v, width)[0])
  {
    AndBitsStep(u, v, width);
    LowestBit(AndBits(u, v, width), width);
    LowestBit(u, width);
    LowestBit(v, width);
  }

  /** Bit k > 0 of `u & v` is bit k - 1 of the same operator on the halves. */
  lemma AndBitsAtHigher(u: nat, v: nat, width: nat, k: nat)
    requires 0 < k < width
    ensures ToBits(AndBits(u, v, width), width)[k] == ToBits(AndBits(u / 2, v / 2, width - 1), width - 1)[k - 1]
    ensures ToBits(u, width)[k] == ToBits(u / 2, width - 1)[k - 1]
    ensures ToBits(v, width)[k] == ToBits(v / 2, width - 1)[k - 1]
  {
    AndBitsStep(u, v, width);
    HigherBit(AndBits(u, v, width), width, k);
    HigherBit(u, width, k);
    HigherBit(v, width, k);
  }

  /** Bit k of `u & v` is set exactly when bit k is set in both. */
  lemma {:induction false} AndBitsAt(u: nat, v: nat, width: nat, k: nat)
    requires k < width
    ensures ToBits(AndBits(u, v, width), width)[k] == (ToBits(u, width)[k] && ToBits(v, width)[k])
  {
    if k == 0 {
      AndBitsAtLowest(u, v, width);
    } else {
      AndBitsAtHigher(u, v, width, k);
      AndBitsAt(u / 2, v / 2, width - 1, k - 1);
    }
  }

  /** One halving step of `OrBits`: its parity is the low bits' result, its half the rest. */
  lemma OrBitsStep(u: nat, v: nat, width: nat)
    requires width > 0
    ensures OrBits(u, v, width) % 2 == Bit(u % 2 == 1 || v % 2 == 1)
    ensures OrBits(u, v, width) / 2 == OrBits(u / 2, v / 2, width - 1)
  {
    Halves(Bit(u % 2 == 1 || v % 2 == 1), OrBits(u / 2, v / 2, width - 1));
  }

  /** Bit 0 of `u | v`. */
  lemma OrBitsAtLowest(u: nat, v: nat, width: nat)
    requires width > 0
    ensures ToBits(OrBits(u, v, width), width)[0] == (ToBits(u, width)[0] || ToBits(v, width)[0])
  {
    OrBitsStep(u, v, width);
    LowestBit(OrBits(u, v, width), width);
    LowestBit(u, width);
    LowestBit(v, width);
  }

  /** Bit k > 0 of `u | v` is bit k - 1 of the same operator on the halves. */
  lemma OrBitsAtHigher(u: nat, v: nat, width: nat, k: nat)
    requires 0 < k < width
    ensures ToBits(OrBits(u, v, width), width)[k] == ToBits(OrBits(u / 2, v / 2, width - 1), width - 1)[k - 1]
    ensures ToBits(u, width)[k] == ToBits(u / 2, width - 1)[k - 1]
    ensures ToBits(v, width)[k] == ToBits(v / 2, width - 1)[k - 1]
  {
    OrBitsStep(u, v, width);
    HigherBit(OrBits(u, v, width), width, k);
    HigherBit(u, width, k);
    HigherBit(v, width, k);
  }

  /** Bit k of `u | v` is set exactly when bit k is set in either. */
  lemma {:induction false} OrBitsAt(u: nat, v: nat, width: nat, k: nat)
    requires k < width
    ensures ToBits(OrBits(u, v, width), width)[k] == (ToBits(u, width)[k] || ToBits(v, width)[k])
  {
    if k == 0 {
      OrBitsAtLowest(u, v, width);
    } else {
      OrBitsAtHigher(u, v, width, k);
      OrBitsAt(u / 2, v / 2, width - 1, k - 1);
    }
  }

  /** One halving step of `XorBits`: its parity is the low bits' result, its half the rest. */
  lemma XorBitsStep(u: nat, v: nat, width: nat)
    requires width > 0
    ensures XorBits(u, v, width) % 2 == Bit(u % 2 != v % 2)
    ensures XorBits(u, v, width) / 2 == XorBits(u / 2, v / 2, width - 1)
  {
    Halves(Bit(u % 2 != v % 2), XorBits(u / 2, v / 2, width - 1));
  }

  /** Bit 0 of `u ^ v`. */
  lemma XorBitsAtLowest(u: nat, v: nat, width: nat)
    requires width > 0
    ensures ToBits(XorBits(u, v, width), width)[0] == (ToBits(u, width)[0] != ToBits(v, width)[0])
  {
    XorBitsStep(u, v, width);
    LowestBit(XorBits(u, v, width), width);
    LowestBit(u, width);
    LowestBit(v, width);
  }

  /** Bit k > 0 of `u ^ v` is bit k - 1 of the same operator on the halves. */
  lemma XorBitsAtHigher(u: nat, v: nat, width: nat, k: nat)
    requires 0 < k < width
    ensures ToBits(XorBits(u, v, width), width)[k] == ToBits(XorBits(u / 2, v / 2, width - 1), width - 1)[k - 1]
    ensures ToBits(u, width)[k] == ToBits(u / 2, width - 1)[k - 1]
    ensures ToBits(v, width)[k] == ToBits(v / 2, width - 1)[k - 1]
  {
    XorBitsStep(u, v, width);
    HigherBit(XorBits(u, v, width), width, k);
    HigherBit(u, width, k);
    HigherBit(v, width, k);
  }

  /** Bit k of `u ^ v` is set exactly when bit k is set in one of them only. */
  lemma {:induction false} XorBitsAt(u: nat, v: nat, width: nat, k: nat)
    requires k < width
    ensures ToBits(XorBits(u, v, width), width)[k] == (ToBits(u, width)[k] != ToBits(v, width)[k])
  {
    if k == 0 {
      XorBitsAtLowest(u, v, width);
    } else {
      XorBitsAtHigher(u, v, width, k);
      XorBitsAt(u / 2, v / 2, width - 1, k - 1);
    }
  }

  /** Exclusive or with the same mask twice gives back every number that fits the width. */
  lemma {:induction false} XorBitsTwice(m: nat, a: nat, width: nat)
    requires a < Pow2(width)
    ensures XorBits(m, XorBits(m, a, width), width) == a
  {
    if width > 0 {
      var x := XorBits(m, a, width);
      XorBitsStep(m, a, width);
      XorBitsStep(m, x, width);
      XorBitsTwice(m / 2, a / 2, width - 1);
    }
  }

  /** Masking with 0 clears every bit. */
  lemma {:induction false} AndZero(u: nat, width: nat)
    ensures AndBits(u, 0, width) == 0
  {
    if width > 0 {
      AndZero(u / 2, width - 1);
    }
  }

  /** Masking with the top bit of `width + 1` bits is nonzero exactly when that bit is set. */
  lemma {:induction false} AndTopBit(u: nat, width: nat)
    requires u < 2 * Pow2(width)
    ensures (AndBits(u, Pow2(width), width + 1) != 0) <==> u >= Pow2(width)
  {
    if width > 0 {
      AndTopBit(u / 2, width - 1);
    }
  }

  /** The top bit of an exclusive or is set exactly when one operand has it. */
  lemma {:induction false} XorTopBit(u: nat, v: nat, width: nat)
    requires u < 2 * Pow2(width) && v < 2 * Pow2(width)
    ensures (XorBits(u, v, width + 1) >= Pow2(width)) <==> ((u >= Pow2(width)) != (v >= Pow2(width)))
  {
    if width > 0 {
      XorTopBit(u / 2, v / 2, width - 1);
    }
  }

  /** A number that fits in `width` bits is kept whole by the mask of all of them. */
  lemma {:induction false} AndLowMaskFits(u: nat, width: nat)
    requires u < Pow2(width)
    ensures AndBits(u, Pow2(width) - 1, width) == u
  {
    if width > 0 {
      var half := Pow2(width - 1);
      assert Pow2(width) - 1 == 1 + 2 * (half - 1);
      AndLowMaskFits(u / 2, width - 1);
    }
  }

  /** Below the top bit, the mask of all lower bits removes nothing. */
  lemma {:induction false} AndLowMaskSmall(u: nat, width: nat)
    requires u < Pow2(width)
    ensures AndBits(u, Pow2(width) - 1, width + 1) == u
  {
    if width > 0 {
      var half := Pow2(width - 1);
      assert Pow2(width) - 1 == 1 + 2 * (half - 1);
      AndLowMaskSmall(u / 2, width - 1);
    }
  }

  /** With the top bit set, the mask of all lower bits removes exactly that bit. */
  lemma {:induction false} AndLowMaskLarge(u: nat, width: nat)
    requires Pow2(width) <= u < 2 * Pow2(width)
    ensures AndBits(u, Pow2(width) - 1, width + 1) == u - Pow2(width)
  {
    if width > 0 {
      var half := Pow2(width - 1);
      assert Pow2(width) - 1 == 1 + 2 * (half - 1);
      AndLowMaskLarge(u / 2, width - 1);
    }
  }
}
