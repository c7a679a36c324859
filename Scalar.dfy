/**
 * The integer bit utilities of the math header: alignment to a power of two,
 * the power-of-two test, rounding to the next and previous power of two, and
 * the count of set bits.
 *
 * Unsigned integers are bit-vectors, so every subtraction, increment and
 * addition below wraps around exactly as the unsigned arithmetic it models.
 * `align_up`, `align_down` and `is_pow2` are templates; they are modelled at
 * the two unsigned widths the header otherwise works in, 32 and 64 bits.
 * `next_pow2` and `previous_pow2` have one overload per width.
 */
module Scalar {
  // ---------------------------------------------------------------------
  // 32-bit powers of two, defined independently of the code under study
  // ---------------------------------------------------------------------

  /** 2^k as a 32-bit value. */
  function Power32(k: bv32): (r: bv32)
    requires k < 32
    ensures SingleBit32(r)
  {
    (1 as bv32) << k
  }

  /** Exactly one bit of `v` is set. */
  predicate SingleBit32(v: bv32)
  {
    v != 0 && v & (v - 1) == 0
  }

  ghost predicate IsPowerOfTwo32(v: bv32)
  {
    exists k: bv32 :: k < 32 && v == Power32(k)
  }

  /** The position of the set bit of a single-bit value, read off one mask per bit of the position. */
  function BitIndex32(v: bv32): bv32
  {
    (if v & 0xFFFF_0000 != 0 then 16 else 0)
    | (if v & 0xFF00_FF00 != 0 then 8 else 0)
    | (if v & 0xF0F0_F0F0 != 0 then 4 else 0)
    | (if v & 0xCCCC_CCCC != 0 then 2 else 0)
    | (if v & 0xAAAA_AAAA != 0 then 1 else 0)
  }

  lemma SingleBitIndex32(v: bv32)
    requires SingleBit32(v)
    ensures BitIndex32(v) < 32 && v == (1 as bv32) << BitIndex32(v)
  {
  }

  /** A 32-bit value is a power of two exactly when it has a single bit set. */
  lemma PowerOfTwoBits32(v: bv32)
    ensures IsPowerOfTwo32(v) <==> SingleBit32(v)
  {
    if SingleBit32(v) {
      SingleBitIndex32(v);
      assert v == Power32(BitIndex32(v));
    }
  }

  // ---------------------------------------------------------------------
  // is_pow2 at 32 bits
  // ---------------------------------------------------------------------

  /** `is_pow2`: clearing the lowest set bit leaves nothing. */
  function IsPow2U32(value: bv32): (r: bool)
    ensures r <==> value == 0 || IsPowerOfTwo32(value)
  {
    PowerOfTwoBits32(value);
    value & (value - 1) == 0
  }

  // ---------------------------------------------------------------------
  // align_up and align_down at 32 bits
  // ---------------------------------------------------------------------

  /** The bits of `v` below the bit of `a` are clear: the test the two align functions are built on. */
  predicate LowBitsClear32(v: bv32, a: bv32)
  {
    v & (a - 1) == 0
  }

  /**
   * `v` is a multiple of the power of two `a`: halving both leaves no
   * remainder until `a` is 1. It holds of no `v` when `a` is not a power of two.
   */
  predicate Multiple32(v: bv32, a: bv32)
    decreases a
  {
    a == 1 || (a != 0 && a % 2 == 0 && v % 2 == 0 && Multiple32(v / 2, a / 2))
  }

  /** For a power of two `a`, clear low bits are exactly divisibility by `a`. */
  lemma {:induction false} MaskMultiple32(v: bv32, a: bv32)
    ensures SingleBit32(a) ==> (LowBitsClear32(v, a) <==> Multiple32(v, a))
    decreases a
  {
    if SingleBit32(a) && a != 1 {
      HalveMask32(v, a);
      MaskMultiple32(v / 2, a / 2);
    }
  }

  /** Halving `v` and a power of two `a` above 1 keeps the low-bits test. */
  lemma HalveMask32(v: bv32, a: bv32)
    requires SingleBit32(a) && a != 1
    ensures SingleBit32(a / 2) && a % 2 == 0
    ensures LowBitsClear32(v, a) <==> v % 2 == 0 && LowBitsClear32(v / 2, a / 2)
  {
  }

  /** `align_down`: clear the bits below the alignment. */
  function AlignDownU32(value: bv32, alignment: bv32): (r: bv32)
    ensures SingleBit32(alignment) ==> Multiple32(r, alignment)
  {
    var r := value & !(alignment - 1);
    MaskMultiple32(r, alignment);
    r
  }

  /** `align_up`: add the alignment less one, then clear the bits below the alignment. */
  function AlignUpU32(value: bv32, alignment: bv32): (r: bv32)
    ensures SingleBit32(alignment) ==> Multiple32(r, alignment)
  {
    var r := (value + (alignment - 1)) & !(alignment - 1);
    MaskMultiple32(r, alignment);
    r
  }

  /** `align_down(v, a)` is at most `v`, and less than `a` below it. */
  lemma AlignDownBounds32(v: bv32, a: bv32)
    requires IsPowerOfTwo32(a)
    ensures AlignDownU32(v, a) <= v && v - AlignDownU32(v, a) < a
  {
    PowerOfTwoBits32(a);
    AlignDownBelow32(v, a);
    AlignDownNear32(v, a);
  }

  /** `align_down(v, a)` is the greatest multiple of `a` that is at most `v`. */
  lemma AlignDownGreatest32(v: bv32, a: bv32, q: bv32)
    requires IsPowerOfTwo32(a)
    requires Multiple32(q, a) && q <= v
    ensures q <= AlignDownU32(v, a)
  {
    PowerOfTwoBits32(a);
    MaskMultiple32(q, a);
    AlignDownAbove32(v, a, q);
  }

  /**
   * Without overflow (`v + a - 1` fits), `align_up(v, a)` is at least `v`
   * and less than `a` above it.
   */
  lemma AlignUpBounds32(v: bv32, a: bv32)
    requires IsPowerOfTwo32(a) && v <= 0 - a
    ensures v <= AlignUpU32(v, a) && AlignUpU32(v, a) - v < a
  {
    PowerOfTwoBits32(a);
    if LowBitsClear32(v, a) {
      AlignUpAlignedBounds32(v, a);
    } else {
      AlignUpNoWrap32(v, a);
      AlignUpAbove32(v, a);
      AlignUpNear32(v, a);
    }
  }

  /** `align_up(v, a)` is the least multiple of `a` that is at least `v`. */
  lemma AlignUpLeast32(v: bv32, a: bv32, q: bv32)
    requires IsPowerOfTwo32(a)
    requires Multiple32(q, a) && v <= q
    ensures AlignUpU32(v, a) <= q
  {
    PowerOfTwoBits32(a);
    MaskMultiple32(q, a);
    AlignUpBelow32(v, a, q);
  }

  /** When `v + a - 1` overflows, the sum wraps around and `align_up` gives 0. */
  lemma AlignUpWraps32(v: bv32, a: bv32)
    requires IsPowerOfTwo32(a) && v > 0 - a
    ensures AlignUpU32(v, a) == 0
  {
    PowerOfTwoBits32(a);
    AlignUpWrapBits32(v, a);
  }

  /** `align_up` leaves `v` unchanged exactly when `v` is a multiple of `a`, and is idempotent. */
  lemma AlignUpFixed32(v: bv32, a: bv32)
    requires IsPowerOfTwo32(a)
    ensures AlignUpU32(v, a) == v <==> Multiple32(v, a)
    ensures AlignUpU32(AlignUpU32(v, a), a) == AlignUpU32(v, a)
  {
    PowerOfTwoBits32(a);
    MaskMultiple32(v, a);
    AlignUpFixedBits32(v, a);
    AlignUpFixedBits32(AlignUpU32(v, a), a);
  }

  /** `align_down` leaves `v` unchanged exactly when `v` is a multiple of `a`, and is idempotent. */
  lemma AlignDownFixed32(v: bv32, a: bv32)
    requires IsPowerOfTwo32(a)
    ensures AlignDownU32(v, a) == v <==> Multiple32(v, a)
    ensures AlignDownU32(AlignDownU32(v, a), a) == AlignDownU32(v, a)
  {
    PowerOfTwoBits32(a);
    MaskMultiple32(v, a);
    AlignDownFixedBits32(v, a);
    AlignDownFixedBits32(AlignDownU32(v, a), a);
  }

  // ---------------------------------------------------------------------
  // next_pow2 and previous_pow2 at 32 bits
  // ---------------------------------------------------------------------

  /** Every bit below the highest set bit of `x` set as well, by or-ing in shifted copies. */
  function Smear32(x: bv32): (r: bv32)
  {
    var v1 := x | (x >> 1);
    var v2 := v1 | (v1 >> 2);
    var v3 := v2 | (v2 >> 4);
    var v4 := v3 | (v3 >> 8);
    v4 | (v4 >> 16)
  }

  /** The smeared value is all ones from the highest set bit of `x` down. */
  lemma SmearShape32(x: bv32)
    ensures Smear32(x) & (Smear32(x) + 1) == 0
    ensures x <= Smear32(x) && (Smear32(x) == 0 || Smear32(x) >> 1 < x)
  {
    SmearMask32(x);
    SmearCovers32(x);
    SmearTight32(x);
  }

  /** `next_pow2`: decrement, smear, increment. */
  function NextPow2U32(value: bv32): (r: bv32)
  {
    Smear32(value - 1) + 1
  }

  /** `previous_pow2`: smear, then keep only the highest bit. */
  function PreviousPow2U32(value: bv32): (r: bv32)
  {
    var s := Smear32(value);
    s ^ (s >> 1)
  }

  /** For 1 <= v <= 2^31, `next_pow2(v)` is a power of two and at least `v`. */
  lemma NextPow2IsPowerOfTwo32(v: bv32)
    requires v != 0 && v <= 0x8000_0000
    ensures IsPowerOfTwo32(NextPow2U32(v)) && v <= NextPow2U32(v)
  {
    NextPow2Facts32(v);
    PowerOfTwoBits32(NextPow2U32(v));
  }

  /** No power of two at least `v` is below `next_pow2(v)`: it is the least one. */
  lemma NextPow2Least32(v: bv32, q: bv32)
    requires v != 0 && IsPowerOfTwo32(q) && v <= q
    ensures NextPow2U32(v) <= q
  {
    PowerOfTwoBits32(q);
    NextPow2AtMostBits32(v, q);
  }

  /** A power of two is its own next power of two. */
  lemma NextPow2Fixed32(v: bv32)
    requires IsPowerOfTwo32(v)
    ensures NextPow2U32(v) == v
  {
    PowerOfTwoBits32(v);
    NextPow2FixedBits32(v);
  }

  /** Outside 1..2^31 the wrap-around gives 0: `0 - 1` smears to all ones, and so does anything above 2^31. */
  lemma NextPow2OutOfRange32(v: bv32)
    requires v == 0 || v > 0x8000_0000
    ensures NextPow2U32(v) == 0
  {
    NextPow2OutBits32(v);
  }

  /** For v >= 1, `previous_pow2(v)` is a power of two, at most `v` and more than half of it. */
  lemma PreviousPow2IsPowerOfTwo32(v: bv32)
    requires v != 0
    ensures IsPowerOfTwo32(PreviousPow2U32(v))
    ensures PreviousPow2U32(v) <= v && v >> 1 < PreviousPow2U32(v)
  {
    PreviousPow2Facts32(v);
    PowerOfTwoBits32(PreviousPow2U32(v));
  }

  /** No power of two at most `v` is above `previous_pow2(v)`: it is the greatest one. */
  lemma PreviousPow2Greatest32(v: bv32, q: bv32)
    requires IsPowerOfTwo32(q) && q <= v
    ensures q <= PreviousPow2U32(v)
  {
    PowerOfTwoBits32(q);
    PreviousPow2AtLeastBits32(v, q);
  }

  /** A power of two is its own previous power of two. */
  lemma PreviousPow2Fixed32(v: bv32)
    requires IsPowerOfTwo32(v)
    ensures PreviousPow2U32(v) == v
  {
    PowerOfTwoBits32(v);
    PreviousPow2FixedBits32(v);
  }

  // ---------------------------------------------------------------------
  // 32-bit facts the lemmas above are assembled from. Each is a statement
  // about a handful of bit-vector operations, small enough for the solver.
  // ---------------------------------------------------------------------

  lemma AlignDownBelow32(v: bv32, a: bv32)
    requires SingleBit32(a)
    ensures AlignDownU32(v, a) <= v
  {
  }

  lemma AlignDownNear32(v: bv32, a: bv32)
    requires SingleBit32(a)
    ensures v - AlignDownU32(v, a) < a
  {
  }

  lemma AlignDownAbove32(v: bv32, a: bv32, q: bv32)
    requires SingleBit32(a) && LowBitsClear32(q, a) && q <= v
    ensures q <= AlignDownU32(v, a)
  {
  }

  lemma AlignUpAlignedBounds32(v: bv32, a: bv32)
    requires SingleBit32(a) && LowBitsClear32(v, a)
    ensures v <= AlignUpU32(v, a) && AlignUpU32(v, a) - v < a
  {
  }

  lemma AlignUpNoWrap32(v: bv32, a: bv32)
    requires SingleBit32(a) && v <= 0 - a
    ensures LowBitsClear32(v, a) || AlignDownU32(v, a) != 0 - a
  {
  }

  lemma AlignUpAbove32(v: bv32, a: bv32)
    requires SingleBit32(a) && !LowBitsClear32(v, a) && AlignDownU32(v, a) != 0 - a
    ensures v <= AlignUpU32(v, a)
  {
  }

  lemma AlignUpNear32(v: bv32, a: bv32)
    requires SingleBit32(a) && !LowBitsClear32(v, a) && AlignDownU32(v, a) != 0 - a
    ensures AlignUpU32(v, a) - v < a
  {
    AlignUpWithin32(v, a);
  }

  /** `u` is less than `a` above `v`. */
  predicate Within32(u: bv32, v: bv32, a: bv32)
  {
    u - v < a
  }

  lemma AlignUpWithin32(v: bv32, a: bv32)
    requires SingleBit32(a) && !LowBitsClear32(v, a) && AlignDownU32(v, a) != 0 - a
    ensures Within32(AlignUpU32(v, a), v, a)
  {
    AlignUpNext32(v, a);
    AlignDownNextWithin32(v, a);
  }

  lemma AlignUpNext32(v: bv32, a: bv32)
    requires SingleBit32(a) && !LowBitsClear32(v, a) && AlignDownU32(v, a) != 0 - a
    ensures AlignUpU32(v, a) == AlignDownU32(v, a) + a
  {
  }

  lemma AlignDownNextWithin32(v: bv32, a: bv32)
    requires SingleBit32(a) && !LowBitsClear32(v, a)
    ensures Within32(AlignDownU32(v, a) + a, v, a)
  {
    AlignDownNextNear32(v, a);
  }

  lemma AlignDownNextNear32(v: bv32, a: bv32)
    requires SingleBit32(a) && !LowBitsClear32(v, a)
    ensures (AlignDownU32(v, a) + a) - v < a
  {
  }

  lemma AlignUpBelow32(v: bv32, a: bv32, q: bv32)
    requires SingleBit32(a) && LowBitsClear32(q, a) && v <= q
    ensures AlignUpU32(v, a) <= q
  {
  }

  lemma AlignUpWrapBits32(v: bv32, a: bv32)
    requires SingleBit32(a) && v > 0 - a
    ensures AlignUpU32(v, a) == 0
  {
  }

  lemma AlignUpFixedBits32(v: bv32, a: bv32)
    requires SingleBit32(a)
    ensures AlignUpU32(v, a) == v <==> LowBitsClear32(v, a)
  {
  }

  lemma AlignDownFixedBits32(v: bv32, a: bv32)
    requires SingleBit32(a)
    ensures AlignDownU32(v, a) == v <==> LowBitsClear32(v, a)
  {
  }

  lemma SmearMask32(x: bv32)
    ensures Smear32(x) & (Smear32(x) + 1) == 0
  {
  }

  lemma SmearCovers32(x: bv32)
    ensures x <= Smear32(x)
  {
  }

  lemma SmearTight32(x: bv32)
    ensures Smear32(x) == 0 || Smear32(x) >> 1 < x
  {
  }

  lemma NextPow2Facts32(v: bv32)
    requires v != 0 && v <= 0x8000_0000
    ensures SingleBit32(NextPow2U32(v)) && v <= NextPow2U32(v)
  {
    DecrementedSmearShape32(v);
    TopBelow32(v);
    NextPow2SingleBits32(v);
    NextPow2AboveBits32(v);
  }

  lemma DecrementedSmearShape32(v: bv32)
    ensures Smear32(v - 1) & (Smear32(v - 1) + 1) == 0
    ensures v - 1 <= Smear32(v - 1) && (Smear32(v - 1) == 0 || Smear32(v - 1) >> 1 < v - 1)
  {
    DecrementedSmearMask32(v);
    DecrementedSmearCovers32(v);
    DecrementedSmearTight32(v);
  }

  lemma DecrementedSmearMask32(v: bv32)
    ensures Smear32(v - 1) & (Smear32(v - 1) + 1) == 0
  {
  }

  lemma DecrementedSmearCovers32(v: bv32)
    ensures v - 1 <= Smear32(v - 1)
  {
  }

  lemma DecrementedSmearTight32(v: bv32)
    ensures Smear32(v - 1) == 0 || Smear32(v - 1) >> 1 < v - 1
  {
  }

  lemma TopBelow32(v: bv32)
    requires v != 0 && v <= 0x8000_0000
    ensures v - 1 <= 0x7FFF_FFFF
  {
  }

  lemma NextPow2SingleBits32(v: bv32)
    requires Smear32(v - 1) & (Smear32(v - 1) + 1) == 0
    requires Smear32(v - 1) == 0 || Smear32(v - 1) >> 1 < v - 1
    requires v - 1 <= 0x7FFF_FFFF
    ensures SingleBit32(NextPow2U32(v))
  {
  }

  lemma NextPow2AboveBits32(v: bv32)
    requires Smear32(v - 1) & (Smear32(v - 1) + 1) == 0
    requires SingleBit32(NextPow2U32(v)) && v != 0 && v - 1 <= Smear32(v - 1)
    ensures v <= NextPow2U32(v)
  {
  }

  lemma NextPow2AtMostBits32(v: bv32, q: bv32)
    requires v != 0 && SingleBit32(q) && v <= q
    ensures NextPow2U32(v) <= q
  {
    SmearBelowSingle32(v, q);
    DecrementedSmearMask32(v);
    NextPow2BelowSingle32(v, q);
  }

  lemma SmearBelowSingle32(v: bv32, q: bv32)
    requires v != 0 && SingleBit32(q) && v <= q
    ensures Smear32(v - 1) < q
  {
    DecrementedSmearShape32(v);
    MaskBelowPower32(v, q, v - 1, Smear32(v - 1));
  }

  lemma MaskBelowPower32(v: bv32, q: bv32, x: bv32, s: bv32)
    requires v != 0 && SingleBit32(q) && v <= q && x == v - 1
    requires s & (s + 1) == 0 && x <= s && (s == 0 || s >> 1 < x)
    ensures s < q
  {
    DecrementBelow32(v, q);
    MaskBelowSingle32(s, x, q);
  }

  lemma DecrementBelow32(v: bv32, q: bv32)
    requires v != 0 && v <= q
    ensures v - 1 < q
  {
  }

  lemma MaskBelowSingle32(s: bv32, x: bv32, q: bv32)
    requires s & (s + 1) == 0 && (s == 0 || s >> 1 < x) && x <= s && x < q && SingleBit32(q)
    ensures s < q
  {
  }

  lemma NextPow2BelowSingle32(v: bv32, q: bv32)
    requires Smear32(v - 1) & (Smear32(v - 1) + 1) == 0 && Smear32(v - 1) < q && SingleBit32(q)
    ensures NextPow2U32(v) <= q
  {
  }

  lemma NextPow2FixedBits32(v: bv32)
    requires SingleBit32(v)
    ensures NextPow2U32(v) == v
  {
  }

  lemma NextPow2OutBits32(v: bv32)
    requires v == 0 || v > 0x8000_0000
    ensures NextPow2U32(v) == 0
  {
  }

  lemma PreviousPow2Facts32(v: bv32)
    requires v != 0
    ensures SingleBit32(PreviousPow2U32(v))
    ensures PreviousPow2U32(v) <= v && v >> 1 < PreviousPow2U32(v)
  {
    PreviousPow2Single32(v);
    PreviousPow2AtMost32(v);
    PreviousPow2Tight32(v);
  }

  lemma PreviousPow2AtLeastBits32(v: bv32, q: bv32)
    requires SingleBit32(q) && q <= v
    ensures q <= PreviousPow2U32(v)
  {
    NonZeroAbove32(q, v);
    PreviousPow2Facts32(v);
    PreviousPow2AboveSingle32(v, q);
  }

  lemma PreviousPow2AboveSingle32(v: bv32, q: bv32)
    requires SingleBit32(q) && q <= v
    requires SingleBit32(PreviousPow2U32(v)) && v >> 1 < PreviousPow2U32(v)
    ensures q <= PreviousPow2U32(v)
  {
  }

  lemma PreviousPow2Single32(v: bv32)
    requires v != 0
    ensures SingleBit32(PreviousPow2U32(v))
  {
    SmearMask32(v);
    SmearNonZero32(v);
    PreviousPow2TopBit32(v);
  }

  lemma SmearNonZero32(v: bv32)
    requires v != 0
    ensures Smear32(v) != 0
  {
  }

  lemma PreviousPow2TopBit32(v: bv32)
    requires Smear32(v) & (Smear32(v) + 1) == 0 && Smear32(v) != 0
    ensures SingleBit32(PreviousPow2U32(v))
  {
  }

  lemma PreviousPow2AtMost32(v: bv32)
    ensures PreviousPow2U32(v) <= v
  {
  }

  lemma PreviousPow2Tight32(v: bv32)
    ensures v == 0 || v >> 1 < PreviousPow2U32(v)
  {
  }

  lemma NonZeroAbove32(q: bv32, v: bv32)
    requires q != 0 && q <= v
    ensures v != 0
  {
  }

  lemma PreviousPow2FixedBits32(v: bv32)
    requires SingleBit32(v)
    ensures PreviousPow2U32(v) == v
  {
  }

  // ---------------------------------------------------------------------
  // 64-bit powers of two, defined independently of the code under study
  // ---------------------------------------------------------------------

  /** 2^k as a 64-bit value. */
  function Power64(k: bv64): (r: bv64)
    requires k < 64
    ensures SingleBit64(r)
  {
    (1 as bv64) << k
  }

  /** Exactly one bit of `v` is set. */
  predicate SingleBit64(v: bv64)
  {
    v != 0 && v & (v - 1) == 0
  }

  ghost predicate IsPowerOfTwo64(v: bv64)
  {
    exists k: bv64 :: k < 64 && v == Power64(k)
  }

  /** The position of the set bit of a single-bit value, read off one mask per bit of the position. */
  function BitIndex64(v: bv64): bv64
  {
    (if v & 0xFFFF_FFFF_0000_0000 != 0 then 32 else 0)
    | (if v & 0xFFFF_0000_FFFF_0000 != 0 then 16 else 0)
    | (if v & 0xFF00_FF00_FF00_FF00 != 0 then 8 else 0)
    | (if v & 0xF0F0_F0F0_F0F0_F0F0 != 0 then 4 else 0)
    | (if v & 0xCCCC_CCCC_CCCC_CCCC != 0 then 2 else 0)
    | (if v & 0xAAAA_AAAA_AAAA_AAAA != 0 then 1 else 0)
  }

  lemma SingleBitIndex64(v: bv64)
    requires SingleBit64(v)
    ensures BitIndex64(v) < 64 && v == (1 as bv64) << BitIndex64(v)
  {
  }

  /** A 64-bit value is a power of two exactly when it has a single bit set. */
  lemma PowerOfTwoBits64(v: bv64)
    ensures IsPowerOfTwo64(v) <==> SingleBit64(v)
  {
    if SingleBit64(v) {
      SingleBitIndex64(v);
      assert v == Power64(BitIndex64(v));
    }
  }

  // ---------------------------------------------------------------------
  // is_pow2 at 64 bits
  // ---------------------------------------------------------------------

  /** `is_pow2`: clearing the lowest set bit leaves nothing. */
  function IsPow2U64(value: bv64): (r: bool)
    ensures r <==> value == 0 || IsPowerOfTwo64(value)
  {
    PowerOfTwoBits64(value);
    value & (value - 1) == 0
  }

  // ---------------------------------------------------------------------
  // align_up and align_down at 64 bits
  // ---------------------------------------------------------------------

  /** The bits of `v` below the bit of `a` are clear: the test the two align functions are built on. */
  predicate LowBitsClear64(v: bv64, a: bv64)
  {
    v & (a - 1) == 0
  }

  /**
   * `v` is a multiple of the power of two `a`: halving both leaves no
   * remainder until `a` is 1. It holds of no `v` when `a` is not a power of two.
   */
  predicate Multiple64(v: bv64, a: bv64)
    decreases a
  {
    a == 1 || (a != 0 && a % 2 == 0 && v % 2 == 0 && Multiple64(v / 2, a / 2))
  }

  /** For a power of two `a`, clear low bits are exactly divisibility by `a`. */
  lemma {:induction false} MaskMultiple64(v: bv64, a: bv64)
    ensures SingleBit64(a) ==> (LowBitsClear64(v, a) <==> Multiple64(v, a))
    decreases a
  {
    if SingleBit64(a) && a != 1 {
      HalveMask64(v, a);
      MaskMultiple64(v / 2, a / 2);
    }
  }

  /** Halving `v` and a power of two `a` above 1 keeps the low-bits test. */
  lemma HalveMask64(v: bv64, a: bv64)
    requires SingleBit64(a) && a != 1
    ensures SingleBit64(a / 2) && a % 2 == 0
    ensures LowBitsClear64(v, a) <==> v % 2 == 0 && LowBitsClear64(v / 2, a / 2)
  {
  }

  /** `align_down`: clear the bits below the alignment. */
  function AlignDownU64(value: bv64, alignment: bv64): (r: bv64)
    ensures SingleBit64(alignment) ==> Multiple64(r, alignment)
  {
    var r := value & !(alignment - 1);
    MaskMultiple64(r, alignment);
    r
  }

  /** `align_up`: add the alignment less one, then clear the bits below the alignment. */
  function AlignUpU64(value: bv64, alignment: bv64): (r: bv64)
    ensures SingleBit64(alignment) ==> Multiple64(r, alignment)
  {
    var r := (value + (alignment - 1)) & !(alignment - 1);
    MaskMultiple64(r, alignment);
    r
  }

  /** `align_down(v, a)` is at most `v`, and less than `a` below it. */
  lemma AlignDownBounds64(v: bv64, a: bv64)
    requires IsPowerOfTwo64(a)
    ensures AlignDownU64(v, a) <= v && v - AlignDownU64(v, a) < a
  {
    PowerOfTwoBits64(a);
    AlignDownBelow64(v, a);
    AlignDownNear64(v, a);
  }

  /** `align_down(v, a)` is the greatest multiple of `a` that is at most `v`. */
  lemma AlignDownGreatest64(v: bv64, a: bv64, q: bv64)
    requires IsPowerOfTwo64(a)
    requires Multiple64(q, a) && q <= v
    ensures q <= AlignDownU64(v, a)
  {
    PowerOfTwoBits64(a);
    MaskMultiple64(q, a);
    AlignDownAbove64(v, a, q);
  }

  /**
   * Without overflow (`v + a - 1` fits), `align_up(v, a)` is at least `v`
   * and less than `a` above it.
   */
  lemma AlignUpBounds64(v: bv64, a: bv64)
    requires IsPowerOfTwo64(a) && v <= 0 - a
    ensures v <= AlignUpU64(v, a) && AlignUpU64(v, a) - v < a
  {
    PowerOfTwoBits64(a);
    if LowBitsClear64(v, a) {
      AlignUpAlignedBounds64(v, a);
    } else {
      AlignUpNoWrap64(v, a);
      AlignUpAbove64(v, a);
      AlignUpNear64(v, a);
    }
  }

  /** `align_up(v, a)` is the least multiple of `a` that is at least `v`. */
  lemma AlignUpLeast64(v: bv64, a: bv64, q: bv64)
    requires IsPowerOfTwo64(a)
    requires Multiple64(q, a) && v <= q
    ensures AlignUpU64(v, a) <= q
  {
    PowerOfTwoBits64(a);
    MaskMultiple64(q, a);
    AlignUpBelow64(v, a, q);
  }

  /** When `v + a - 1` overflows, the sum wraps around and `align_up` gives 0. */
  lemma AlignUpWraps64(v: bv64, a: bv64)
    requires IsPowerOfTwo64(a) && v > 0 - a
    ensures AlignUpU64(v, a) == 0
  {
    PowerOfTwoBits64(a);
    AlignUpWrapBits64(v, a);
  }

  /** `align_up` leaves `v` unchanged exactly when `v` is a multiple of `a`, and is idempotent. */
  lemma AlignUpFixed64(v: bv64, a: bv64)
    requires IsPowerOfTwo64(a)
    ensures AlignUpU64(v, a) == v <==> Multiple64(v, a)
    ensures AlignUpU64(AlignUpU64(v, a), a) == AlignUpU64(v, a)
  {
    PowerOfTwoBits64(a);
    MaskMultiple64(v, a);
    AlignUpFixedBits64(v, a);
    AlignUpFixedBits64(AlignUpU64(v, a), a);
  }

  /** `align_down` leaves `v` unchanged exactly when `v` is a multiple of `a`, and is idempotent. */
  lemma AlignDownFixed64(v: bv64, a: bv64)
    requires IsPowerOfTwo64(a)
    ensures AlignDownU64(v, a) == v <==> Multiple64(v, a)
    ensures AlignDownU64(AlignDownU64(v, a), a) == AlignDownU64(v, a)
  {
    PowerOfTwoBits64(a);
    MaskMultiple64(v, a);
    AlignDownFixedBits64(v, a);
    AlignDownFixedBits64(AlignDownU64(v, a), a);
  }

  // ---------------------------------------------------------------------
  // next_pow2 and previous_pow2 at 64 bits
  // ---------------------------------------------------------------------

  /** Every bit below the highest set bit of `x` set as well, by or-ing in shifted copies. */
  function Smear64(x: bv64): (r: bv64)
  {
    var v1 := x | (x >> 1);
    var v2 := v1 | (v1 >> 2);
    var v3 := v2 | (v2 >> 4);
    var v4 := v3 | (v3 >> 8);
    var v5 := v4 | (v4 >> 16);
    v5 | (v5 >> 32)
  }

  /** The smeared value is all ones from the highest set bit of `x` down. */
  lemma SmearShape64(x: bv64)
    ensures Smear64(x) & (Smear64(x) + 1) == 0
    ensures x <= Smear64(x) && (Smear64(x) == 0 || Smear64(x) >> 1 < x)
  {
    SmearMask64(x);
    SmearCovers64(x);
    SmearTight64(x);
  }

  /** `next_pow2`: decrement, smear, increment. */
  function NextPow2U64(value: bv64): (r: bv64)
  {
    Smear64(value - 1) + 1
  }

  /** `previous_pow2`: smear, then keep only the highest bit. */
  function PreviousPow2U64(value: bv64): (r: bv64)
  {
    var s := Smear64(value);
    s ^ (s >> 1)
  }

  /** For 1 <= v <= 2^63, `next_pow2(v)` is a power of two and at least `v`. */
  lemma NextPow2IsPowerOfTwo64(v: bv64)
    requires v != 0 && v <= 0x8000_0000_0000_0000
    ensures IsPowerOfTwo64(NextPow2U64(v)) && v <= NextPow2U64(v)
  {
    NextPow2Facts64(v);
    PowerOfTwoBits64(NextPow2U64(v));
  }

  /** No power of two at least `v` is below `next_pow2(v)`: it is the least one. */
  lemma NextPow2Least64(v: bv64, q: bv64)
    requires v != 0 && IsPowerOfTwo64(q) && v <= q
    ensures NextPow2U64(v) <= q
  {
    PowerOfTwoBits64(q);
    NextPow2AtMostBits64(v, q);
  }

  /** A power of two is its own next power of two. */
  lemma NextPow2Fixed64(v: bv64)
    requires IsPowerOfTwo64(v)
    ensures NextPow2U64(v) == v
  {
    PowerOfTwoBits64(v);
    NextPow2FixedBits64(v);
  }

  /** Outside 1..2^63 the wrap-around gives 0: `0 - 1` smears to all ones, and so does anything above 2^63. */
  lemma NextPow2OutOfRange64(v: bv64)
    requires v == 0 || v > 0x8000_0000_0000_0000
    ensures NextPow2U64(v) == 0
  {
    NextPow2OutBits64(v);
  }

  /** For v >= 1, `previous_pow2(v)` is a power of two, at most `v` and more than half of it. */
  lemma PreviousPow2IsPowerOfTwo64(v: bv64)
    requires v != 0
    ensures IsPowerOfTwo64(PreviousPow2U64(v))
    ensures PreviousPow2U64(v) <= v && v >> 1 < PreviousPow2U64(v)
  {
    PreviousPow2Facts64(v);
    PowerOfTwoBits64(PreviousPow2U64(v));
  }

  /** No power of two at most `v` is above `previous_pow2(v)`: it is the greatest one. */
  lemma PreviousPow2Greatest64(v: bv64, q: bv64)
    requires IsPowerOfTwo64(q) && q <= v
    ensures q <= PreviousPow2U64(v)
  {
    PowerOfTwoBits64(q);
    PreviousPow2AtLeastBits64(v, q);
  }

  /** A power of two is its own previous power of two. */
  lemma PreviousPow2Fixed64(v: bv64)
    requires IsPowerOfTwo64(v)
    ensures PreviousPow2U64(v) == v
  {
    PowerOfTwoBits64(v);
    PreviousPow2FixedBits64(v);
  }

  // ---------------------------------------------------------------------
  // 64-bit facts the lemmas above are assembled from. Each is a statement
  // about a handful of bit-vector operations, small enough for the solver.
  // ---------------------------------------------------------------------

  lemma AlignDownBelow64(v: bv64, a: bv64)
    requires SingleBit64(a)
    ensures AlignDownU64(v, a) <= v
  {
  }

  lemma AlignDownNear64(v: bv64, a: bv64)
    requires SingleBit64(a)
    ensures v - AlignDownU64(v, a) < a
  {
  }

  lemma AlignDownAbove64(v: bv64, a: bv64, q: bv64)
    requires SingleBit64(a) && LowBitsClear64(q, a) && q <= v
    ensures q <= AlignDownU64(v, a)
  {
  }

  lemma AlignUpAlignedBounds64(v: bv64, a: bv64)
    requires SingleBit64(a) && LowBitsClear64(v, a)
    ensures v <= AlignUpU64(v, a) && AlignUpU64(v, a) - v < a
  {
  }

  lemma AlignUpNoWrap64(v: bv64, a: bv64)
    requires SingleBit64(a) && v <= 0 - a
    ensures LowBitsClear64(v, a) || AlignDownU64(v, a) != 0 - a
  {
  }

  lemma AlignUpAbove64(v: bv64, a: bv64)
    requires SingleBit64(a) && !LowBitsClear64(v, a) && AlignDownU64(v, a) != 0 - a
    ensures v <= AlignUpU64(v, a)
  {
  }

  lemma AlignUpNear64(v: bv64, a: bv64)
    requires SingleBit64(a) && !LowBitsClear64(v, a) && AlignDownU64(v, a) != 0 - a
    ensures AlignUpU64(v, a) - v < a
  {
    AlignUpWithin64(v, a);
  }

  /** `u` is less than `a` above `v`. */
  predicate Within64(u: bv64, v: bv64, a: bv64)
  {
    u - v < a
  }

  lemma AlignUpWithin64(v: bv64, a: bv64)
    requires SingleBit64(a) && !LowBitsClear64(v, a) && AlignDownU64(v, a) != 0 - a
    ensures Within64(AlignUpU64(v, a), v, a)
  {
    AlignUpNext64(v, a);
    AlignDownNextWithin64(v, a);
  }

  lemma AlignUpNext64(v: bv64, a: bv64)
    requires SingleBit64(a) && !LowBitsClear64(v, a) && AlignDownU64(v, a) != 0 - a
    ensures AlignUpU64(v, a) == AlignDownU64(v, a) + a
  {
  }

  lemma AlignDownNextWithin64(v: bv64, a: bv64)
    requires SingleBit64(a) && !LowBitsClear64(v, a)
    ensures Within64(AlignDownU64(v, a) + a, v, a)
  {
    AlignDownNextNear64(v, a);
  }

  lemma AlignDownNextNear64(v: bv64, a: bv64)
    requires SingleBit64(a) && !LowBitsClear64(v, a)
    ensures (AlignDownU64(v, a) + a) - v < a
  {
  }

  lemma AlignUpBelow64(v: bv64, a: bv64, q: bv64)
    requires SingleBit64(a) && LowBitsClear64(q, a) && v <= q
    ensures AlignUpU64(v, a) <= q
  {
  }

  lemma AlignUpWrapBits64(v: bv64, a: bv64)
    requires SingleBit64(a) && v > 0 - a
    ensures AlignUpU64(v, a) == 0
  {
  }

  lemma AlignUpFixedBits64(v: bv64, a: bv64)
    requires SingleBit64(a)
    ensures AlignUpU64(v, a) == v <==> LowBitsClear64(v, a)
  {
  }

  lemma AlignDownFixedBits64(v: bv64, a: bv64)
    requires SingleBit64(a)
    ensures AlignDownU64(v, a) == v <==> LowBitsClear64(v, a)
  {
  }

  lemma SmearMask64(x: bv64)
    ensures Smear64(x) & (Smear64(x) + 1) == 0
  {
  }

  lemma SmearCovers64(x: bv64)
    ensures x <= Smear64(x)
  {
  }

  lemma SmearTight64(x: bv64)
    ensures Smear64(x) == 0 || Smear64(x) >> 1 < x
  {
  }

  lemma NextPow2Facts64(v: bv64)
    requires v != 0 && v <= 0x8000_0000_0000_0000
    ensures SingleBit64(NextPow2U64(v)) && v <= NextPow2U64(v)
  {
    DecrementedSmearShape64(v);
    TopBelow64(v);
    NextPow2SingleBits64(v);
    NextPow2AboveBits64(v);
  }

  lemma DecrementedSmearShape64(v: bv64)
    ensures Smear64(v - 1) & (Smear64(v - 1) + 1) == 0
    ensures v - 1 <= Smear64(v - 1) && (Smear64(v - 1) == 0 || Smear64(v - 1) >> 1 < v - 1)
  {
    DecrementedSmearMask64(v);
    DecrementedSmearCovers64(v);
    DecrementedSmearTight64(v);
  }

  lemma DecrementedSmearMask64(v: bv64)
    ensures Smear64(v - 1) & (Smear64(v - 1) + 1) == 0
  {
  }

  lemma DecrementedSmearCovers64(v: bv64)
    ensures v - 1 <= Smear64(v - 1)
  {
  }

  lemma DecrementedSmearTight64(v: bv64)
    ensures Smear64(v - 1) == 0 || Smear64(v - 1) >> 1 < v - 1
  {
  }

  lemma TopBelow64(v: bv64)
    requires v != 0 && v <= 0x8000_0000_0000_0000
    ensures v - 1 <= 0x7FFF_FFFF_FFFF_FFFF
  {
  }

  lemma NextPow2SingleBits64(v: bv64)
    requires Smear64(v - 1) & (Smear64(v - 1) + 1) == 0
    requires Smear64(v - 1) == 0 || Smear64(v - 1) >> 1 < v - 1
    requires v - 1 <= 0x7FFF_FFFF_FFFF_FFFF
    ensures SingleBit64(NextPow2U64(v))
  {
  }

  lemma NextPow2AboveBits64(v: bv64)
    requires Smear64(v - 1) & (Smear64(v - 1) + 1) == 0
    requires SingleBit64(NextPow2U64(v)) && v != 0 && v - 1 <= Smear64(v - 1)
    ensures v <= NextPow2U64(v)
  {
  }

  lemma NextPow2AtMostBits64(v: bv64, q: bv64)
    requires v != 0 && SingleBit64(q) && v <= q
    ensures NextPow2U64(v) <= q
  {
    SmearBelowSingle64(v, q);
    DecrementedSmearMask64(v);
    NextPow2BelowSingle64(v, q);
  }

  lemma SmearBelowSingle64(v: bv64, q: bv64)
    requires v != 0 && SingleBit64(q) && v <= q
    ensures Smear64(v - 1) < q
  {
    DecrementedSmearShape64(v);
    MaskBelowPower64(v, q, v - 1, Smear64(v - 1));
  }

  lemma MaskBelowPower64(v: bv64, q: bv64, x: bv64, s: bv64)
    requires v != 0 && SingleBit64(q) && v <= q && x == v - 1
    requires s & (s + 1) == 0 && x <= s && (s == 0 || s >> 1 < x)
    ensures s < q
  {
    DecrementBelow64(v, q);
    MaskBelowSingle64(s, x, q);
  }

  lemma DecrementBelow64(v: bv64, q: bv64)
    requires v != 0 && v <= q
    ensures v - 1 < q
  {
  }

  lemma MaskBelowSingle64(s: bv64, x: bv64, q: bv64)
    requires s & (s + 1) == 0 && (s == 0 || s >> 1 < x) && x <= s && x < q && SingleBit64(q)
    ensures s < q
  {
  }

  lemma NextPow2BelowSingle64(v: bv64, q: bv64)
    requires Smear64(v - 1) & (Smear64(v - 1) + 1) == 0 && Smear64(v - 1) < q && SingleBit64(q)
    ensures NextPow2U64(v) <= q
  {
  }

  lemma NextPow2FixedBits64(v: bv64)
    requires SingleBit64(v)
    ensures NextPow2U64(v) == v
  {
  }

  lemma NextPow2OutBits64(v: bv64)
    requires v == 0 || v > 0x8000_0000_0000_0000
    ensures NextPow2U64(v) == 0
  {
  }

  lemma PreviousPow2Facts64(v: bv64)
    requires v != 0
    ensures SingleBit64(PreviousPow2U64(v))
    ensures PreviousPow2U64(v) <= v && v >> 1 < PreviousPow2U64(v)
  {
    PreviousPow2Single64(v);
    PreviousPow2AtMost64(v);
    PreviousPow2Tight64(v);
  }

  lemma PreviousPow2AtLeastBits64(v: bv64, q: bv64)
    requires SingleBit64(q) && q <= v
    ensures q <= PreviousPow2U64(v)
  {
    NonZeroAbove64(q, v);
    PreviousPow2Facts64(v);
    PreviousPow2AboveSingle64(v, q);
  }

  lemma PreviousPow2AboveSingle64(v: bv64, q: bv64)
    requires SingleBit64(q) && q <= v
    requires SingleBit64(PreviousPow2U64(v)) && v >> 1 < PreviousPow2U64(v)
    ensures q <= PreviousPow2U64(v)
  {
  }

  lemma PreviousPow2Single64(v: bv64)
    requires v != 0
    ensures SingleBit64(PreviousPow2U64(v))
  {
    SmearMask64(v);
    SmearNonZero64(v);
    PreviousPow2TopBit64(v);
  }

  lemma SmearNonZero64(v: bv64)
    requires v != 0
    ensures Smear64(v) != 0
  {
  }

  lemma PreviousPow2TopBit64(v: bv64)
    requires Smear64(v) & (Smear64(v) + 1) == 0 && Smear64(v) != 0
    ensures SingleBit64(PreviousPow2U64(v))
  {
  }

  lemma PreviousPow2AtMost64(v: bv64)
    ensures PreviousPow2U64(v) <= v
  {
  }

  lemma PreviousPow2Tight64(v: bv64)
    ensures v == 0 || v >> 1 < PreviousPow2U64(v)
  {
  }

  lemma NonZeroAbove64(q: bv64, v: bv64)
    requires q != 0 && q <= v
    ensures v != 0
  {
  }

  lemma PreviousPow2FixedBits64(v: bv64)
    requires SingleBit64(v)
    ensures PreviousPow2U64(v) == v
  {
  }

  // ---------------------------------------------------------------------
  // The zero cases the header comments warn about
  // ---------------------------------------------------------------------

  /** The documented false positive: zero passes the power-of-two test. */
  lemma IsPow2ZeroFalsePositive()
    ensures IsPow2U32(0) && !IsPowerOfTwo32(0)
    ensures IsPow2U64(0) && !IsPowerOfTwo64(0)
  {
    PowerOfTwoBits32(0);
    PowerOfTwoBits64(0);
  }

  /** Zero, which has no power of two below it, gives 0. */
  lemma PreviousPow2Zero()
    ensures PreviousPow2U32(0) == 0 && PreviousPow2U64(0) == 0
  {
  }

  // ---------------------------------------------------------------------
  // count_bits_set
  // ---------------------------------------------------------------------

  /** Bit `i` of `v` as a number. */
  function Bit(v: bv32, i: nat): (b: nat)
    requires i < 32
    ensures b <= 1
  {
    ((v >> i) & 1) as int
  }

  /** The number of set bits among the lowest `n` bits of `v`. */
  function Ones(v: bv32, n: nat): (c: nat)
    requires n <= 32
    ensures c <= n
  {
    if n == 0 then 0 else Ones(v, n - 1) + Bit(v, n - 1)
  }

  /** The number of set bits of `v`. */
  function PopCount32(v: bv32): (c: nat)
    ensures c <= 32
  {
    Ones(v, 32)
  }

  // The five lines of `count_bits_set`. Each adds neighbouring fields of the
  // previous line: 1-bit fields into 2-bit fields, then into 4, 8, 16 and 32
  // bits. The first line subtracts instead of adding; on a 2-bit field `b`
  // that is the same, since `b - (b >> 1)` is the sum of its two bits.

  function PairSums(x: bv32): bv32
  {
    x - ((x >> 1) & 0x5555_5555)
  }

  function NibbleSums(x: bv32): bv32
  {
    ((x >> 2) & 0x3333_3333) + (x & 0x3333_3333)
  }

  function ByteSums(x: bv32): bv32
  {
    ((x >> 4) + x) & 0x0F0F_0F0F
  }

  function HalfSums(x: bv32): bv32
  {
    ((x >> 8) + x) & 0x00FF_00FF
  }

  function WordSum(x: bv32): bv32
  {
    ((x >> 16) + x) & 0x0000_FFFF
  }

  /** `count_bits_set`: the number of set bits of `value`, hence at most 32. */
  function CountBitsSet(value: bv32): (r: bv32)
    ensures r as int == PopCount32(value)
  {
    WordCount(value);
    OnesUnfolded(value);
    var r0 := PairSums(value);
    var r1 := NibbleSums(r0);
    var r2 := ByteSums(r1);
    var r3 := HalfSums(r2);
    WordSum(r3)
  }

  /** Fields 0 to 3 of the first line: each 2-bit field holds the sum of its two bits. */
  lemma PairFields0(x: bv32)
    ensures (PairSums(x) & 0x3) as int == (x & 0x1) as int + ((x >> 1) & 0x1) as int
    ensures ((PairSums(x) >> 2) & 0x3) as int == ((x >> 2) & 0x1) as int + ((x >> 3) & 0x1) as int
    ensures ((PairSums(x) >> 4) & 0x3) as int == ((x >> 4) & 0x1) as int + ((x >> 5) & 0x1) as int
    ensures ((PairSums(x) >> 6) & 0x3) as int == ((x >> 6) & 0x1) as int + ((x >> 7) & 0x1) as int
    ensures (PairSums(x) & 0x3) <= 2
    ensures ((PairSums(x) >> 2) & 0x3) <= 2
    ensures ((PairSums(x) >> 4) & 0x3) <= 2
    ensures ((PairSums(x) >> 6) & 0x3) <= 2
  {
  }

  /** Fields 4 to 7 of the first line: each 2-bit field holds the sum of its two bits. */
  lemma PairFields1(x: bv32)
    ensures ((PairSums(x) >> 8) & 0x3) as int == ((x >> 8) & 0x1) as int + ((x >> 9) & 0x1) as int
    ensures ((PairSums(x) >> 10) & 0x3) as int == ((x >> 10) & 0x1) as int + ((x >> 11) & 0x1) as int
    ensures ((PairSums(x) >> 12) & 0x3) as int == ((x >> 12) & 0x1) as int + ((x >> 13) & 0x1) as int
    ensures ((PairSums(x) >> 14) & 0x3) as int == ((x >> 14) & 0x1) as int + ((x >> 15) & 0x1) as int
    ensures ((PairSums(x) >> 8) & 0x3) <= 2
    ensures ((PairSums(x) >> 10) & 0x3) <= 2
    ensures ((PairSums(x) >> 12) & 0x3) <= 2
    ensures ((PairSums(x) >> 14) & 0x3) <= 2
  {
  }

  /** Fields 8 to 11 of the first line: each 2-bit field holds the sum of its two bits. */
  lemma PairFields2(x: bv32)
    ensures ((PairSums(x) >> 16) & 0x3) as int == ((x >> 16) & 0x1) as int + ((x >> 17) & 0x1) as int
    ensures ((PairSums(x) >> 18) & 0x3) as int == ((x >> 18) & 0x1) as int + ((x >> 19) & 0x1) as int
    ensures ((PairSums(x) >> 20) & 0x3) as int == ((x >> 20) & 0x1) as int + ((x >> 21) & 0x1) as int
    ensures ((PairSums(x) >> 22) & 0x3) as int == ((x >> 22) & 0x1) as int + ((x >> 23) & 0x1) as int
    ensures ((PairSums(x) >> 16) & 0x3) <= 2
    ensures ((PairSums(x) >> 18) & 0x3) <= 2
    ensures ((PairSums(x) >> 20) & 0x3) <= 2
    ensures ((PairSums(x) >> 22) & 0x3) <= 2
  {
  }

  /** Fields 12 to 15 of the first line: each 2-bit field holds the sum of its two bits. */
  lemma PairFields3(x: bv32)
    ensures ((PairSums(x) >> 24) & 0x3) as int == ((x >> 24) & 0x1) as int + ((x >> 25) & 0x1) as int
    ensures ((PairSums(x) >> 26) & 0x3) as int == ((x >> 26) & 0x1) as int + ((x >> 27) & 0x1) as int
    ensures ((PairSums(x) >> 28) & 0x3) as int == ((x >> 28) & 0x1) as int + ((x >> 29) & 0x1) as int
    ensures ((PairSums(x) >> 30) & 0x3) as int == ((x >> 30) & 0x1) as int + ((x >> 31) & 0x1) as int
    ensures ((PairSums(x) >> 24) & 0x3) <= 2
    ensures ((PairSums(x) >> 26) & 0x3) <= 2
    ensures ((PairSums(x) >> 28) & 0x3) <= 2
    ensures ((PairSums(x) >> 30) & 0x3) <= 2
  {
  }

  /** The second line: each 4-bit field is the sum of its two 2-bit fields. */
  lemma NibbleFields(x: bv32)
    requires (x & 0x3) <= 2
    requires ((x >> 2) & 0x3) <= 2
    requires ((x >> 4) & 0x3) <= 2
    requires ((x >> 6) & 0x3) <= 2
    requires ((x >> 8) & 0x3) <= 2
    requires ((x >> 10) & 0x3) <= 2
    requires ((x >> 12) & 0x3) <= 2
    requires ((x >> 14) & 0x3) <= 2
    requires ((x >> 16) & 0x3) <= 2
    requires ((x >> 18) & 0x3) <= 2
    requires ((x >> 20) & 0x3) <= 2
    requires ((x >> 22) & 0x3) <= 2
    requires ((x >> 24) & 0x3) <= 2
    requires ((x >> 26) & 0x3) <= 2
    requires ((x >> 28) & 0x3) <= 2
    requires ((x >> 30) & 0x3) <= 2
    ensures (NibbleSums(x) & 0xF) as int == (x & 0x3) as int + ((x >> 2) & 0x3) as int
    ensures ((NibbleSums(x) >> 4) & 0xF) as int == ((x >> 4) & 0x3) as int + ((x >> 6) & 0x3) as int
    ensures ((NibbleSums(x) >> 8) & 0xF) as int == ((x >> 8) & 0x3) as int + ((x >> 10) & 0x3) as int
    ensures ((NibbleSums(x) >> 12) & 0xF) as int == ((x >> 12) & 0x3) as int + ((x >> 14) & 0x3) as int
    ensures ((NibbleSums(x) >> 16) & 0xF) as int == ((x >> 16) & 0x3) as int + ((x >> 18) & 0x3) as int
    ensures ((NibbleSums(x) >> 20) & 0xF) as int == ((x >> 20) & 0x3) as int + ((x >> 22) & 0x3) as int
    ensures ((NibbleSums(x) >> 24) & 0xF) as int == ((x >> 24) & 0x3) as int + ((x >> 26) & 0x3) as int
    ensures ((NibbleSums(x) >> 28) & 0xF) as int == ((x >> 28) & 0x3) as int + ((x >> 30) & 0x3) as int
    ensures (NibbleSums(x) & 0xF) <= 4
    ensures ((NibbleSums(x) >> 4) & 0xF) <= 4
    ensures ((NibbleSums(x) >> 8) & 0xF) <= 4
    ensures ((NibbleSums(x) >> 12) & 0xF) <= 4
    ensures ((NibbleSums(x) >> 16) & 0xF) <= 4
    ensures ((NibbleSums(x) >> 20) & 0xF) <= 4
    ensures ((NibbleSums(x) >> 24) & 0xF) <= 4
    ensures ((NibbleSums(x) >> 28) & 0xF) <= 4
  {
  }

  /** The third line: no 4-bit sum carries, so each byte is the sum of its two nibbles. */
  lemma ByteFields(x: bv32)
    requires (x & 0xF) <= 4
    requires ((x >> 4) & 0xF) <= 4
    requires ((x >> 8) & 0xF) <= 4
    requires ((x >> 12) & 0xF) <= 4
    requires ((x >> 16) & 0xF) <= 4
    requires ((x >> 20) & 0xF) <= 4
    requires ((x >> 24) & 0xF) <= 4
    requires ((x >> 28) & 0xF) <= 4
    ensures (ByteSums(x) & 0xFF) as int == (x & 0xF) as int + ((x >> 4) & 0xF) as int
    ensures ((ByteSums(x) >> 8) & 0xFF) as int == ((x >> 8) & 0xF) as int + ((x >> 12) & 0xF) as int
    ensures ((ByteSums(x) >> 16) & 0xFF) as int == ((x >> 16) & 0xF) as int + ((x >> 20) & 0xF) as int
    ensures ((ByteSums(x) >> 24) & 0xFF) as int == ((x >> 24) & 0xF) as int + ((x >> 28) & 0xF) as int
    ensures (ByteSums(x) & 0xFF) <= 8
    ensures ((ByteSums(x) >> 8) & 0xFF) <= 8
    ensures ((ByteSums(x) >> 16) & 0xFF) <= 8
    ensures ((ByteSums(x) >> 24) & 0xFF) <= 8
  {
  }

  /** The fourth line: each 16-bit half is the sum of its two bytes. */
  lemma HalfFields(x: bv32)
    requires (x & 0xFF) <= 8
    requires ((x >> 8) & 0xFF) <= 8
    requires ((x >> 16) & 0xFF) <= 8
    requires ((x >> 24) & 0xFF) <= 8
    ensures (HalfSums(x) & 0xFFFF) as int == (x & 0xFF) as int + ((x >> 8) & 0xFF) as int
    ensures ((HalfSums(x) >> 16) & 0xFFFF) as int == ((x >> 16) & 0xFF) as int + ((x >> 24) & 0xFF) as int
    ensures (HalfSums(x) & 0xFFFF) <= 16
    ensures ((HalfSums(x) >> 16) & 0xFFFF) <= 16
  {
  }

  /** The last line: the result is the sum of the two halves. */
  lemma WordField(x: bv32)
    requires (x & 0xFFFF) <= 16
    requires ((x >> 16) & 0xFFFF) <= 16
    ensures WordSum(x) as int == (x & 0xFFFF) as int + ((x >> 16) & 0xFFFF) as int
  {
  }

  /** After the second line each nibble counts the set bits of the same nibble of `v`. */
  lemma NibbleCounts(v: bv32)
    ensures (NibbleSums(PairSums(v)) & 0xF) as int == Bit(v, 0) + Bit(v, 1) + Bit(v, 2) + Bit(v, 3)
    ensures ((NibbleSums(PairSums(v)) >> 4) & 0xF) as int == Bit(v, 4) + Bit(v, 5) + Bit(v, 6) + Bit(v, 7)
    ensures ((NibbleSums(PairSums(v)) >> 8) & 0xF) as int == Bit(v, 8) + Bit(v, 9) + Bit(v, 10) + Bit(v, 11)
    ensures ((NibbleSums(PairSums(v)) >> 12) & 0xF) as int == Bit(v, 12) + Bit(v, 13) + Bit(v, 14) + Bit(v, 15)
    ensures ((NibbleSums(PairSums(v)) >> 16) & 0xF) as int == Bit(v, 16) + Bit(v, 17) + Bit(v, 18) + Bit(v, 19)
    ensures ((NibbleSums(PairSums(v)) >> 20) & 0xF) as int == Bit(v, 20) + Bit(v, 21) + Bit(v, 22) + Bit(v, 23)
    ensures ((NibbleSums(PairSums(v)) >> 24) & 0xF) as int == Bit(v, 24) + Bit(v, 25) + Bit(v, 26) + Bit(v, 27)
    ensures ((NibbleSums(PairSums(v)) >> 28) & 0xF) as int == Bit(v, 28) + Bit(v, 29) + Bit(v, 30) + Bit(v, 31)
    ensures (NibbleSums(PairSums(v)) & 0xF) <= 4
    ensures ((NibbleSums(PairSums(v)) >> 4) & 0xF) <= 4
    ensures ((NibbleSums(PairSums(v)) >> 8) & 0xF) <= 4
    ensures ((NibbleSums(PairSums(v)) >> 12) & 0xF) <= 4
    ensures ((NibbleSums(PairSums(v)) >> 16) & 0xF) <= 4
    ensures ((NibbleSums(PairSums(v)) >> 20) & 0xF) <= 4
    ensures ((NibbleSums(PairSums(v)) >> 24) & 0xF) <= 4
    ensures ((NibbleSums(PairSums(v)) >> 28) & 0xF) <= 4
  {
    PairFields0(v);
    PairFields1(v);
    PairFields2(v);
    PairFields3(v);
    NibbleFields(PairSums(v));
  }

  /** After the third line each byte counts the set bits of the same byte of `v`. */
  lemma ByteCounts(v: bv32)
    ensures (ByteSums(NibbleSums(PairSums(v))) & 0xFF) as int == Bit(v, 0) + Bit(v, 1) + Bit(v, 2) + Bit(v, 3) + Bit(v, 4) + Bit(v, 5) + Bit(v, 6) + Bit(v, 7)
    ensures ((ByteSums(NibbleSums(PairSums(v))) >> 8) & 0xFF) as int == Bit(v, 8) + Bit(v, 9) + Bit(v, 10) + Bit(v, 11) + Bit(v, 12) + Bit(v, 13) + Bit(v, 14) + Bit(v, 15)
    ensures ((ByteSums(NibbleSums(PairSums(v))) >> 16) & 0xFF) as int == Bit(v, 16) + Bit(v, 17) + Bit(v, 18) + Bit(v, 19) + Bit(v, 20) + Bit(v, 21) + Bit(v, 22) + Bit(v, 23)
    ensures ((ByteSums(NibbleSums(PairSums(v))) >> 24) & 0xFF) as int == Bit(v, 24) + Bit(v, 25) + Bit(v, 26) + Bit(v, 27) + Bit(v, 28) + Bit(v, 29) + Bit(v, 30) + Bit(v, 31)
    ensures (ByteSums(NibbleSums(PairSums(v))) & 0xFF) <= 8
    ensures ((ByteSums(NibbleSums(PairSums(v))) >> 8) & 0xFF) <= 8
    ensures ((ByteSums(NibbleSums(PairSums(v))) >> 16) & 0xFF) <= 8
    ensures ((ByteSums(NibbleSums(PairSums(v))) >> 24) & 0xFF) <= 8
  {
    NibbleCounts(v);
    ByteFields(NibbleSums(PairSums(v)));
  }

  /** After the fourth line each half counts the set bits of the same half of `v`. */
  lemma HalfCounts(v: bv32)
    ensures (HalfSums(ByteSums(NibbleSums(PairSums(v)))) & 0xFFFF) as int == Bit(v, 0) + Bit(v, 1) + Bit(v, 2) + Bit(v, 3) + Bit(v, 4) + Bit(v, 5) + Bit(v, 6) + Bit(v, 7) + Bit(v, 8) + Bit(v, 9) + Bit(v, 10) + Bit(v, 11) + Bit(v, 12) + Bit(v, 13) + Bit(v, 14) + Bit(v, 15)
    ensures ((HalfSums(ByteSums(NibbleSums(PairSums(v)))) >> 16) & 0xFFFF) as int == Bit(v, 16) + Bit(v, 17) + Bit(v, 18) + Bit(v, 19) + Bit(v, 20) + Bit(v, 21) + Bit(v, 22) + Bit(v, 23) + Bit(v, 24) + Bit(v, 25) + Bit(v, 26) + Bit(v, 27) + Bit(v, 28) + Bit(v, 29) + Bit(v, 30) + Bit(v, 31)
    ensures (HalfSums(ByteSums(NibbleSums(PairSums(v)))) & 0xFFFF) <= 16
    ensures ((HalfSums(ByteSums(NibbleSums(PairSums(v)))) >> 16) & 0xFFFF) <= 16
  {
    ByteCounts(v);
    HalfFields(ByteSums(NibbleSums(PairSums(v))));
  }

  /** The five lines together count all 32 bits. */
  lemma WordCount(v: bv32)
    ensures WordSum(HalfSums(ByteSums(NibbleSums(PairSums(v))))) as int == Bit(v, 0) + Bit(v, 1) + Bit(v, 2) + Bit(v, 3) + Bit(v, 4) + Bit(v, 5) + Bit(v, 6) + Bit(v, 7) + Bit(v, 8) + Bit(v, 9) + Bit(v, 10) + Bit(v, 11) + Bit(v, 12) + Bit(v, 13) + Bit(v, 14) + Bit(v, 15) + Bit(v, 16) + Bit(v, 17) + Bit(v, 18) + Bit(v, 19) + Bit(v, 20) + Bit(v, 21) + Bit(v, 22) + Bit(v, 23) + Bit(v, 24) + Bit(v, 25) + Bit(v, 26) + Bit(v, 27) + Bit(v, 28) + Bit(v, 29) + Bit(v, 30) + Bit(v, 31)
  {
    HalfCounts(v);
    WordField(HalfSums(ByteSums(NibbleSums(PairSums(v)))));
  }

  lemma OnesSteps0(v: bv32)
    ensures Ones(v, 8) == Ones(v, 0) + Bit(v, 0) + Bit(v, 1) + Bit(v, 2) + Bit(v, 3) + Bit(v, 4) + Bit(v, 5) + Bit(v, 6) + Bit(v, 7)
  {
    assert Ones(v, 1) == Ones(v, 0) + Bit(v, 0);
    assert Ones(v, 2) == Ones(v, 1) + Bit(v, 1);
    assert Ones(v, 3) == Ones(v, 2) + Bit(v, 2);
    assert Ones(v, 4) == Ones(v, 3) + Bit(v, 3);
    assert Ones(v, 5) == Ones(v, 4) + Bit(v, 4);
    assert Ones(v, 6) == Ones(v, 5) + Bit(v, 5);
    assert Ones(v, 7) == Ones(v, 6) + Bit(v, 6);
    assert Ones(v, 8) == Ones(v, 7) + Bit(v, 7);
  }

  lemma OnesSteps8(v: bv32)
    ensures Ones(v, 16) == Ones(v, 8) + Bit(v, 8) + Bit(v, 9) + Bit(v, 10) + Bit(v, 11) + Bit(v, 12) + Bit(v, 13) + Bit(v, 14) + Bit(v, 15)
  {
    assert Ones(v, 9) == Ones(v, 8) + Bit(v, 8);
    assert Ones(v, 10) == Ones(v, 9) + Bit(v, 9);
    assert Ones(v, 11) == Ones(v, 10) + Bit(v, 10);
    assert Ones(v, 12) == Ones(v, 11) + Bit(v, 11);
    assert Ones(v, 13) == Ones(v, 12) + Bit(v, 12);
    assert Ones(v, 14) == Ones(v, 13) + Bit(v, 13);
    assert Ones(v, 15) == Ones(v, 14) + Bit(v, 14);
    assert Ones(v, 16) == Ones(v, 15) + Bit(v, 15);
  }

  lemma OnesSteps16(v: bv32)
    ensures Ones(v, 24) == Ones(v, 16) + Bit(v, 16) + Bit(v, 17) + Bit(v, 18) + Bit(v, 19) + Bit(v, 20) + Bit(v, 21) + Bit(v, 22) + Bit(v, 23)
  {
    assert Ones(v, 17) == Ones(v, 16) + Bit(v, 16);
    assert Ones(v, 18) == Ones(v, 17) + Bit(v, 17);
    assert Ones(v, 19) == Ones(v, 18) + Bit(v, 18);
    assert Ones(v, 20) == Ones(v, 19) + Bit(v, 19);
    assert Ones(v, 21) == Ones(v, 20) + Bit(v, 20);
    assert Ones(v, 22) == Ones(v, 21) + Bit(v, 21);
    assert Ones(v, 23) == Ones(v, 22) + Bit(v, 22);
    assert Ones(v, 24) == Ones(v, 23) + Bit(v, 23);
  }

  lemma OnesSteps24(v: bv32)
    ensures Ones(v, 32) == Ones(v, 24) + Bit(v, 24) + Bit(v, 25) + Bit(v, 26) + Bit(v, 27) + Bit(v, 28) + Bit(v, 29) + Bit(v, 30) + Bit(v, 31)
  {
    assert Ones(v, 25) == Ones(v, 24) + Bit(v, 24);
    assert Ones(v, 26) == Ones(v, 25) + Bit(v, 25);
    assert Ones(v, 27) == Ones(v, 26) + Bit(v, 26);
    assert Ones(v, 28) == Ones(v, 27) + Bit(v, 27);
    assert Ones(v, 29) == Ones(v, 28) + Bit(v, 28);
    assert Ones(v, 30) == Ones(v, 29) + Bit(v, 29);
    assert Ones(v, 31) == Ones(v, 30) + Bit(v, 30);
    assert Ones(v, 32) == Ones(v, 31) + Bit(v, 31);
  }

  /** `PopCount32` written out as the sum of the 32 bits. */
  lemma OnesUnfolded(v: bv32)
    ensures PopCount32(v) == Bit(v, 0) + Bit(v, 1) + Bit(v, 2) + Bit(v, 3) + Bit(v, 4) + Bit(v, 5) + Bit(v, 6) + Bit(v, 7) + Bit(v, 8) + Bit(v, 9) + Bit(v, 10) + Bit(v, 11) + Bit(v, 12) + Bit(v, 13) + Bit(v, 14) + Bit(v, 15) + Bit(v, 16) + Bit(v, 17) + Bit(v, 18) + Bit(v, 19) + Bit(v, 20) + Bit(v, 21) + Bit(v, 22) + Bit(v, 23) + Bit(v, 24) + Bit(v, 25) + Bit(v, 26) + Bit(v, 27) + Bit(v, 28) + Bit(v, 29) + Bit(v, 30) + Bit(v, 31)
  {
    OnesSteps0(v);
    OnesSteps8(v);
    OnesSteps16(v);
    OnesSteps24(v);
  }
}
