/**
 * Bit-level helpers of the decoder: 32-bit reversal, k-bit reversal and sign
 * extension, written with the JavaScript operators exactly as the source applies
 * them, together with their meaning in terms of a reference bit reversal.
 */
module Bit {
  import opened JsInt

  /** The masks of the four butterfly stages: upper and lower group of each pair. */
  const HI_1: nat := 0xaaaaaaaa
  const LO_1: nat := 0x55555555
  const HI_2: nat := 0xcccccccc
  const LO_2: nat := 0x33333333
  const HI_4: nat := 0xf0f0f0f0
  const LO_4: nat := 0x0f0f0f0f
  const HI_8: nat := 0xff00ff00
  const LO_8: nat := 0x00ff00ff

  /** One butterfly stage of `bitReverse32`: exchange neighbouring groups of m bits. */
  function SwapStage(value: int, hi: int, lo: int, m: nat): int32
  {
    Or(Shr(And(value, hi), m), Shl(And(value, lo), m))
  }

  /** Reverses the 32 bits of a number; the result is a signed 32-bit integer. */
  function BitReverse32(value: int): int32
  {
    var v1 := SwapStage(value, HI_1, LO_1, 1);
    var v2 := SwapStage(v1, HI_2, LO_2, 2);
    var v3 := SwapStage(v2, HI_4, LO_4, 4);
    var v4 := SwapStage(v3, HI_8, LO_8, 8);
    // `>>>` binds tighter than `|`, so the final `>>> 0` applies to the left shift only
    Or(Shr(v4, 16), Shr(Shl(v4, 16), 0))
  }

  function BitReverse32WithBitCount(value: int, bitCount: int): int
  {
    Shr(BitReverse32(value), 32 - bitCount)
  }

  function SignExtend32(value: int, bits: int): int32
  {
    var shift := 8 * 4 - bits;
    Sar(Shl(value, shift), shift)
  }

  /** Reference k-bit reversal: bit j of the result is bit k-1-j of v. */
  function Reverse(v: nat, k: nat): (r: nat)
    ensures r < Pow2(k)
  {
    if k == 0 then 0 else (if v % 2 == 1 then Pow2(k - 1) else 0) + Reverse(v / 2, k - 1)
  }

  // ---------------------------------------------------------------------------
  // Sign extension

  /** A b-bit field reads as its two's-complement value. */
  lemma SignExtendField(v: int, b: int)
    requires 1 <= b <= 32 && 0 <= v < Pow2(b)
    ensures SignExtend32(v, b) == if v < Pow2(b - 1) then v else v - Pow2(b)
  {
    var s: nat := 32 - b;
    var w := v * Pow2(s);
    FieldSign(v, b, s, w);
    ShlField(v, s, w);
    SarExact(ToInt32(w), s);
  }

  /** 2^(b-1) * 2^s and 2^b * 2^s are 2^31 and 2^32 when b + s is 32. */
  lemma FieldScale(v: int, b: int, s: nat)
    requires 1 <= b <= 32 && s == 32 - b && 0 <= v < Pow2(b)
    ensures Pow2(b - 1) * Pow2(s) == TWO_31 && Pow2(b) * Pow2(s) == TWO_32
    ensures 0 <= v * Pow2(s) < TWO_32
  {
    Pow2Add(b, s);
    Pow2Add(b - 1, s);
    Pow2Word(b + s);
    Pow2Word(b - 1 + s);
    MulLeft(0, v, Pow2(s));
    MulLeft(v, Pow2(b) - 1, Pow2(s));
    MulDist(Pow2(b), 1, Pow2(s));
  }

  lemma ShlField(v: int, s: nat, w: int)
    requires s < 32 && 0 <= v < TWO_32 && w == v * Pow2(s)
    ensures Shl(v, s) == ToInt32(w)
  {
    assert s % 32 == s;
  }

  /** An arithmetic right shift of a signed 32-bit value is a floor division. */
  lemma SarExact(x: int32, s: nat)
    requires s < 32
    ensures Sar(x, s) == x / Pow2(s)
  {
    assert s % 32 == s;
  }

  lemma FieldSign(v: int, b: int, s: nat, w: int)
    requires 1 <= b <= 32 && s == 32 - b && 0 <= v < Pow2(b) && w == v * Pow2(s)
    ensures 0 <= v < TWO_32
    ensures ToInt32(w) / Pow2(s) == if v < Pow2(b - 1) then v else v - Pow2(b)
  {
    FieldScale(v, b, s);
    var p := Pow2(s);
    MulLeft(1, p, v);
    assert Pow2(b) == 2 * Pow2(b - 1);
    if v < Pow2(b - 1) {
      MulLeft(v, Pow2(b - 1) - 1, p);
      MulDist(Pow2(b - 1), 1, p);
      assert ToInt32(w) == w;
      MulAddDivMod(v, 0, p);
    } else {
      MulLeft(Pow2(b - 1), v, p);
      MulDist(v, Pow2(b), p);
      assert ToInt32(w) == (v - Pow2(b)) * p;
      MulAddDivMod(v - Pow2(b), 0, p);
    }
  }

  /** Whatever the input, the result is a b-bit two's-complement value. */
  lemma SignExtendRange(v: int, b: int)
    requires 1 <= b <= 32
    ensures -(Pow2(b - 1) as int) <= SignExtend32(v, b) < Pow2(b - 1)
  {
    var s: nat := 32 - b;
    var x := Shl(v, s);
    SarExact(x, s);
    var lo := FieldBounds(b, s);
    DivPow2Bound(x, lo, Pow2(b - 1), s);
  }

  lemma FieldBounds(b: int, s: nat) returns (lo: int)
    requires 1 <= b <= 32 && s == 32 - b
    ensures lo == -(Pow2(b - 1) as int)
    ensures lo * Pow2(s) == -TWO_31 && Pow2(b - 1) * Pow2(s) == TWO_31
  {
    Pow2Add(b - 1, s);
    Pow2Word(b - 1 + s);
    lo := -(Pow2(b - 1) as int);
    MulDist(Pow2(b - 1), 0, Pow2(s));
  }

  // ---------------------------------------------------------------------------
  // Bit reversal, one bit at a time

  /**
   * n pairs of m-bit groups, the lower group of each pair all ones: the lower
   * masks of the butterfly stages, built without 32-bit literals.
   */
  function AlternatingMask(m: nat, n: nat): nat
  {
    if n == 0 then 0 else (Pow2(m) - 1) + Pow2(2 * m) * AlternatingMask(m, n - 1)
  }

  /** The masks of a stage are the alternating masks of its group size. */
  lemma StageMaskValues(m: nat, n: nat, lo: nat, hi: nat)
    requires StageMasks(m, n, lo, hi)
    ensures lo == AlternatingMask(m, n) && hi == lo * Pow2(m)
  {
    if m == 1 {
      MaskValue1();
    } else if m == 2 {
      MaskValue2();
    } else if m == 4 {
      MaskValue4();
    } else {
      MaskValue8();
    }
  }

  lemma MaskValue1()
    ensures AlternatingMask(1, 16) == LO_1 && HI_1 == LO_1 * Pow2(1)
  {
    assert Pow2(1) == 2 && Pow2(2) == 4;
    assert AlternatingMask(1, 4) == 0x55;
    assert AlternatingMask(1, 8) == 0x5555;
    assert AlternatingMask(1, 12) == 0x55_5555;
  }

  lemma MaskValue2()
    ensures AlternatingMask(2, 8) == LO_2 && HI_2 == LO_2 * Pow2(2)
  {
    assert Pow2(2) == 4 && Pow2(4) == 16;
    assert AlternatingMask(2, 4) == 0x3333;
  }

  lemma MaskValue4()
    ensures AlternatingMask(4, 4) == LO_4 && HI_4 == LO_4 * Pow2(4)
  {
    assert Pow2(4) == 16 && Pow2(8) == 256;
  }

  lemma MaskValue8()
    ensures AlternatingMask(8, 2) == LO_8 && HI_8 == LO_8 * Pow2(8)
  {
    Pow2Of32();
  }

  lemma {:induction false} OnesBit(m: nat, r: nat)
    requires r < m
    ensures BitAt(Pow2(m) - 1, r) == 1
  {
    assert Pow2(m) - 1 == 2 * (Pow2(m - 1) - 1) + 1;
    MulAddDivMod(Pow2(m - 1) - 1, 1, 2);
    if r > 0 {
      OnesBit(m - 1, r - 1);
    }
  }

  /** The bits of a + 2^s * l, for a below 2^s. */
  lemma BitAtSplit(a: nat, l: nat, s: nat, j: nat)
    requires a < Pow2(s)
    ensures BitAt(a + Pow2(s) * l, j) == if j < s then BitAt(a, j) else BitAt(l, j - s)
  {
    var y := a + Pow2(s) * l;
    MulAddDivMod(l, a, Pow2(s));
    if j < s {
      BitAtMod(y, s, j);
    } else {
      BitAtDiv(y, s, j - s);
    }
  }

  /** Bit r of group q is set exactly in the even groups of the mask. */
  lemma {:induction false} AlternatingMaskBit(m: nat, n: nat, q: nat, r: nat)
    requires 0 <= r < m
    ensures BitAt(AlternatingMask(m, n), q * m + r) == if q < 2 * n && q % 2 == 0 then 1 else 0
  {
    var j := q * m + r;
    if n == 0 {
      BitAtOfZero(j);
    } else {
      var ones := Pow2(m) - 1;
      var rest := AlternatingMask(m, n - 1);
      assert AlternatingMask(m, n) == ones + Pow2(2 * m) * rest;
      Pow2Monotone(m, 2 * m);
      BitAtSplit(ones, rest, 2 * m, j);
      GroupIndex(m, q, r, j);
      if q >= 2 {
        AlternatingMaskBit(m, n - 1, q - 2, r);
      } else if q == 1 {
        BitAtHigh(ones, m, j);
      } else {
        OnesBit(m, r);
      }
    }
  }

  /** Where position j = qm + r lies relative to the first two groups. */
  lemma GroupIndex(m: nat, q: nat, r: nat, j: nat)
    requires r < m && j == q * m + r
    ensures q >= 2 ==> j >= 2 * m && j - 2 * m == (q - 2) * m + r
    ensures q >= 1 ==> j >= m && j - m == (q - 1) * m + r
    ensures q == 1 ==> m <= j < 2 * m
    ensures q == 0 ==> j == r
    ensures q >= 1 ==> ((q - 1) % 2 == 0 <==> q % 2 == 1)
    ensures q >= 2 ==> (q - 2) % 2 == q % 2
  {
    var h, p := q / 2, q % 2;
    if q >= 1 {
      var k := q - 1;
      DivModUnique(k, 2, if p == 1 then h else h - 1, 1 - p);
    }
    if q >= 1 {
      MulLeft(1, q, m);
      MulDist(q, 1, m);
    }
    if q >= 2 {
      MulLeft(2, q, m);
      MulDist(q, 2, m);
      DivModUnique(q - 2, 2, h - 1, p);
    }
  }

  /** Position 2mq + r of pair q, as a position in group 2q or 2q + 1. */
  lemma PairIndex(m: nat, q: nat, r: nat)
    requires r < 2 * m
    ensures r < m ==> 2 * m * q + r == (2 * q) * m + r
    ensures r >= m ==> 2 * m * q + r == (2 * q + 1) * m + (r - m)
  {
    MulDist(2 * q, 1, m);
  }

  /** Shifted up by one group, the mask selects the odd groups. */
  lemma HighMaskBit(m: nat, n: nat, q: nat, r: nat)
    requires r < m
    ensures BitAt(AlternatingMask(m, n) * Pow2(m), q * m + r) == if q <= 2 * n && q % 2 == 1 then 1 else 0
  {
    var j := q * m + r;
    BitAtMul(AlternatingMask(m, n), m, j);
    GroupIndex(m, q, r, j);
    if q >= 1 {
      AlternatingMaskBit(m, n, q - 1, r);
    }
  }

  /** Bit r of a pair of m-bit groups: the lower mask covers the lower group. */
  lemma PairBits(m: nat, n: nat, lo: nat, hi: nat, q: nat, r: nat)
    requires lo == AlternatingMask(m, n) && hi == lo * Pow2(m) && r < 2 * m
    ensures BitAt(lo, 2 * m * q + r) == (if r < m && q < n then 1 else 0)
    ensures BitAt(hi, 2 * m * q + r) == (if r < m || q >= n then 0 else 1)
  {
    PairIndex(m, q, r);
    if r < m {
      AlternatingMaskBit(m, n, 2 * q, r);
      HighMaskBit(m, n, 2 * q, r);
    } else {
      AlternatingMaskBit(m, n, 2 * q + 1, r - m);
      HighMaskBit(m, n, 2 * q + 1, r - m);
    }
  }

  /** The shift and masks of each butterfly stage, and the number of group pairs. */
  predicate StageMasks(m: nat, n: nat, lo: nat, hi: nat)
  {
    || (m == 1 && n == 16 && lo == LO_1 && hi == HI_1)
    || (m == 2 && n == 8 && lo == LO_2 && hi == HI_2)
    || (m == 4 && n == 4 && lo == LO_4 && hi == HI_4)
    || (m == 8 && n == 2 && lo == LO_8 && hi == HI_8)
  }

  /** Bit r of pair q of one stage's masks. */
  lemma MaskBits(m: nat, n: nat, lo: nat, hi: nat, q: nat, r: nat)
    requires StageMasks(m, n, lo, hi) && r < 2 * m
    ensures BitAt(lo, 2 * m * q + r) == (if r < m && q < n then 1 else 0)
    ensures BitAt(hi, 2 * m * q + r) == (if r < m || q >= n then 0 else 1)
  {
    StageMaskValues(m, n, lo, hi);
    PairBits(m, n, lo, hi, q, r);
  }

  lemma UnsignedAnd(x: int, y: int)
    ensures ToUint32(And(x, y)) == BitAnd(ToUint32(x), ToUint32(y), 32)
  {
    Pow2Of32();
  }

  lemma UnsignedOr(x: int, y: int)
    ensures ToUint32(Or(x, y)) == BitOr(ToUint32(x), ToUint32(y), 32)
  {
    Pow2Of32();
  }

  lemma UnsignedShl(x: int, m: nat)
    requires m < 32
    ensures ToUint32(Shl(x, m)) == (ToUint32(x) * Pow2(m)) % Pow2(32)
  {
    Pow2Of32();
    DivModUnique(m, 32, 0, m);
    var w := ToUint32(x) * Pow2(m);
    assert Shl(x, m) == ToInt32(w);
  }

  lemma UnsignedShr(x: int, m: nat)
    requires m < 32
    ensures ToUint32(Shr(x, m)) == ToUint32(x) / Pow2(m)
  {
    assert m % 32 == m;
  }

  /** Bit j of a right shift by m. */
  lemma ShrBit(x: int, m: nat, j: nat)
    requires m < 32 && j < 32
    ensures BitAt(ToUint32(Shr(x, m)), j) == if j + m < 32 then BitAt(ToUint32(x), j + m) else 0
  {
    Pow2Of32();
    UnsignedShr(x, m);
    BitAtDiv(ToUint32(x), m, j);
    if j + m >= 32 {
      BitAtHigh(ToUint32(x), 32, j + m);
    }
  }

  /** Bit j of a left shift by m. */
  lemma ShlBit(x: int, m: nat, j: nat)
    requires m < 32 && j < 32
    ensures BitAt(ToUint32(Shl(x, m)), j) == if j >= m then BitAt(ToUint32(x), j - m) else 0
  {
    UnsignedShl(x, m);
    BitAtShiftLeft(ToUint32(x), m, 32, j);
  }

  lemma AndBit(x: int, y: int, j: nat)
    requires j < 32
    ensures BitAt(ToUint32(And(x, y)), j) == if BitAt(ToUint32(x), j) == 1 && BitAt(ToUint32(y), j) == 1 then 1 else 0
  {
    UnsignedAnd(x, y);
    BitAtAnd(ToUint32(x), ToUint32(y), 32, j);
  }

  lemma OrBit(x: int, y: int, j: nat)
    requires j < 32
    ensures BitAt(ToUint32(Or(x, y)), j) == if BitAt(ToUint32(x), j) == 1 || BitAt(ToUint32(y), j) == 1 then 1 else 0
  {
    UnsignedOr(x, y);
    BitAtOr(ToUint32(x), ToUint32(y), 32, j);
  }

  /** A masked stage: bit j comes from bit j+m of the upper mask or bit j-m of the lower one. */
  lemma SwapStageBits(v: int, hi: nat, lo: nat, m: nat, j: nat)
    requires m < 32 && j < 32 && hi < TWO_32 && lo < TWO_32
    ensures BitAt(ToUint32(SwapStage(v, hi, lo, m)), j) ==
      if (j + m < 32 && BitAt(ToUint32(v), j + m) == 1 && BitAt(hi, j + m) == 1)
         || (j >= m && BitAt(ToUint32(v), j - m) == 1 && BitAt(lo, j - m) == 1)
      then 1 else 0
  {
    OrBit(Shr(And(v, hi), m), Shl(And(v, lo), m), j);
    ShrBit(And(v, hi), m, j);
    ShlBit(And(v, lo), m, j);
    if j + m < 32 {
      AndBit(v, hi, j + m);
    }
    if j >= m {
      AndBit(v, lo, j - m);
    }
  }

  /** Position j = 2mq + r of a stage of m-bit groups, and where its bit comes from. */
  predicate StagePosition(m: nat, j: nat, q: nat, r: nat, source: nat)
  {
    r < 2 * m && j == 2 * m * q + r && j < 32 && source == if r < m then j + m else j - m
  }

  /** A stage: position j = 2mq + r takes its bit from the other group of its pair. */
  lemma StageBit(v: int, m: nat, n: nat, lo: nat, hi: nat, j: nat, q: nat, r: nat, source: nat)
    requires StageMasks(m, n, lo, hi) && StagePosition(m, j, q, r, source)
    ensures BitAt(ToUint32(SwapStage(v, hi, lo, m)), j) == BitAt(ToUint32(v), source)
  {
    SwapStageBits(v, hi, lo, m, j);
    StageCore(ToUint32(v), ToUint32(SwapStage(v, hi, lo, m)), m, n, lo, hi, j, q, r, source);
  }

  /** The bit-level content of `StageBit`, on plain numbers u (input) and w (output). */
  lemma StageCore(u: nat, w: nat, m: nat, n: nat, lo: nat, hi: nat, j: nat, q: nat, r: nat, source: nat)
    requires StageMasks(m, n, lo, hi) && StagePosition(m, j, q, r, source)
    requires BitAt(w, j) ==
      if (j + m < 32 && BitAt(u, j + m) == 1 && BitAt(hi, j + m) == 1)
         || (j >= m && BitAt(u, j - m) == 1 && BitAt(lo, j - m) == 1)
      then 1 else 0
    ensures BitAt(w, j) == BitAt(u, source)
  {
    if m == 1 {
      Stage1Core(u, w, j, q, r);
    } else if m == 2 {
      Stage2Core(u, w, j, q, r);
    } else if m == 4 {
      Stage4Core(u, w, j, q, r);
    } else {
      Stage8Core(u, w, j, q, r);
    }
  }

  lemma Stage1Core(u: nat, w: nat, j: nat, q: nat, r: nat)
    requires r < 2 && j == 2 * q + r && j < 32
    requires BitAt(w, j) ==
      if (j + 1 < 32 && BitAt(u, j + 1) == 1 && BitAt(HI_1, j + 1) == 1)
         || (j >= 1 && BitAt(u, j - 1) == 1 && BitAt(LO_1, j - 1) == 1)
      then 1 else 0
    ensures BitAt(w, j) == BitAt(u, if r < 1 then j + 1 else j - 1)
  {
    if r < 1 {
      MaskBits(1, 16, LO_1, HI_1, q, r + 1);
      if q > 0 {
        MaskBits(1, 16, LO_1, HI_1, q - 1, r + 1);
      }
    } else {
      MaskBits(1, 16, LO_1, HI_1, q, r - 1);
      if 2 * (q + 1) + r - 1 < 32 {
        MaskBits(1, 16, LO_1, HI_1, q + 1, r - 1);
      }
    }
  }

  lemma Stage2Core(u: nat, w: nat, j: nat, q: nat, r: nat)
    requires r < 4 && j == 4 * q + r && j < 32
    requires BitAt(w, j) ==
      if (j + 2 < 32 && BitAt(u, j + 2) == 1 && BitAt(HI_2, j + 2) == 1)
         || (j >= 2 && BitAt(u, j - 2) == 1 && BitAt(LO_2, j - 2) == 1)
      then 1 else 0
    ensures BitAt(w, j) == BitAt(u, if r < 2 then j + 2 else j - 2)
  {
    if r < 2 {
      MaskBits(2, 8, LO_2, HI_2, q, r + 2);
      if q > 0 {
        MaskBits(2, 8, LO_2, HI_2, q - 1, r + 2);
      }
    } else {
      MaskBits(2, 8, LO_2, HI_2, q, r - 2);
      if 4 * (q + 1) + r - 2 < 32 {
        MaskBits(2, 8, LO_2, HI_2, q + 1, r - 2);
      }
    }
  }

  lemma Stage4Core(u: nat, w: nat, j: nat, q: nat, r: nat)
    requires r < 8 && j == 8 * q + r && j < 32
    requires BitAt(w, j) ==
      if (j + 4 < 32 && BitAt(u, j + 4) == 1 && BitAt(HI_4, j + 4) == 1)
         || (j >= 4 && BitAt(u, j - 4) == 1 && BitAt(LO_4, j - 4) == 1)
      then 1 else 0
    ensures BitAt(w, j) == BitAt(u, if r < 4 then j + 4 else j - 4)
  {
    if r < 4 {
      MaskBits(4, 4, LO_4, HI_4, q, r + 4);
      if q > 0 {
        MaskBits(4, 4, LO_4, HI_4, q - 1, r + 4);
      }
    } else {
      MaskBits(4, 4, LO_4, HI_4, q, r - 4);
      if 8 * (q + 1) + r - 4 < 32 {
        MaskBits(4, 4, LO_4, HI_4, q + 1, r - 4);
      }
    }
  }

  lemma Stage8Core(u: nat, w: nat, j: nat, q: nat, r: nat)
    requires r < 16 && j == 16 * q + r && j < 32
    requires BitAt(w, j) ==
      if (j + 8 < 32 && BitAt(u, j + 8) == 1 && BitAt(HI_8, j + 8) == 1)
         || (j >= 8 && BitAt(u, j - 8) == 1 && BitAt(LO_8, j - 8) == 1)
      then 1 else 0
    ensures BitAt(w, j) == BitAt(u, if r < 8 then j + 8 else j - 8)
  {
    if r < 8 {
      MaskBits(8, 2, LO_8, HI_8, q, r + 8);
      if q > 0 {
        MaskBits(8, 2, LO_8, HI_8, q - 1, r + 8);
      }
    } else {
      MaskBits(8, 2, LO_8, HI_8, q, r - 8);
      if 16 * (q + 1) + r - 8 < 32 {
        MaskBits(8, 2, LO_8, HI_8, q + 1, r - 8);
      }
    }
  }

  /** The unmasked last stage exchanges the two 16-bit halves. */
  lemma HalfSwapBit(v: int, j: nat, source: nat)
    requires j < 32 && source == if j < 16 then j + 16 else j - 16
    ensures BitAt(ToUint32(Or(Shr(v, 16), Shr(Shl(v, 16), 0))), j) == BitAt(ToUint32(v), source)
  {
    OrBit(Shr(v, 16), Shr(Shl(v, 16), 0), j);
    ShrBit(v, 16, j);
    HalfSwapLow(v, j);
  }

  lemma HalfSwapLow(v: int, j: nat)
    requires j < 32
    ensures BitAt(ToUint32(Shr(Shl(v, 16), 0)), j) == if j >= 16 then BitAt(ToUint32(v), j - 16) else 0
  {
    ShrBit(Shl(v, 16), 0, j);
    ShlBit(v, 16, j);
  }

  /**
   * The stages of `bitReverse32` with the masks and shifts passed as values: bit j
   * of the result comes from position p16 before the half swap, p8 before stage 8,
   * and so on down to p1 before stage 1.
   */
  lemma StagesBit(v: int, h1: nat, l1: nat, h2: nat, l2: nat, h4: nat, l4: nat, h8: nat, l8: nat,
                  j: nat, p16: nat, p8: nat, p4: nat, p2: nat, p1: nat,
                  q8: nat, r8: nat, q4: nat, r4: nat, q2: nat, r2: nat, q1: nat, r1: nat)
    requires h1 == HI_1 && l1 == LO_1 && h2 == HI_2 && l2 == LO_2
    requires h4 == HI_4 && l4 == LO_4 && h8 == HI_8 && l8 == LO_8
    requires j < 32 && p16 == if j < 16 then j + 16 else j - 16
    requires StagePosition(8, p16, q8, r8, p8) && StagePosition(4, p8, q4, r4, p4)
    requires StagePosition(2, p4, q2, r2, p2) && StagePosition(1, p2, q1, r1, p1)
    ensures var v4 := SwapStage(SwapStage(SwapStage(SwapStage(v, h1, l1, 1), h2, l2, 2), h4, l4, 4), h8, l8, 8);
            BitAt(ToUint32(Or(Shr(v4, 16), Shr(Shl(v4, 16), 0))), j) == BitAt(ToUint32(v), p1)
  {
    var v1 := SwapStage(v, h1, l1, 1);
    var v2 := SwapStage(v1, h2, l2, 2);
    var v3 := SwapStage(v2, h4, l4, 4);
    HalfSwapBit(SwapStage(v3, h8, l8, 8), j, p16);
    StageBit(v3, 8, 2, l8, h8, p16, q8, r8, p8);
    StageBit(v2, 4, 4, l4, h4, p8, q4, r4, p4);
    StageBit(v1, 2, 8, l2, h2, p4, q2, r2, p2);
    StageBit(v, 1, 16, l1, h1, p2, q1, r1, p1);
  }

  /**
   * The positions a bit passes through on its way from 31-j to j, for the
   * position j whose binary digits are a b c d e.
   */
  lemma StagePositions(j: nat, a: nat, b: nat, c: nat, d: nat, e: nat)
    returns (p16: nat, p8: nat, p4: nat, p2: nat, p1: nat,
             q8: nat, r8: nat, q4: nat, r4: nat, q2: nat, r2: nat, q1: nat, r1: nat)
    requires a < 2 && b < 2 && c < 2 && d < 2 && e < 2 && j == 16 * a + 8 * b + 4 * c + 2 * d + e
    ensures p16 == if j < 16 then j + 16 else j - 16
    ensures StagePosition(8, p16, q8, r8, p8) && StagePosition(4, p8, q4, r4, p4)
    ensures StagePosition(2, p4, q2, r2, p2) && StagePosition(1, p2, q1, r1, p1)
    ensures p1 == 31 - j
  {
    p16, q8, q4, q2, q1 := DigitPositions(j, a, b, c, d, e);
    r8, p8 := FlipDigit(8, p16, q8, b, 4 * c + 2 * d + e);
    r4, p4 := FlipDigit(4, p8, q4, c, 2 * d + e);
    r2, p2 := FlipDigit(2, p4, q2, d, e);
    r1, p1 := FlipDigit(1, p2, q1, e, 0);
  }

  /** The arithmetic of `StagePositions`: each position written in the groups of the next stage. */
  lemma DigitPositions(j: nat, a: nat, b: nat, c: nat, d: nat, e: nat)
    returns (p16: nat, q8: nat, q4: nat, q2: nat, q1: nat)
    requires a < 2 && b < 2 && c < 2 && d < 2 && e < 2 && j == 16 * a + 8 * b + 4 * c + 2 * d + e
    ensures p16 == if j < 16 then j + 16 else j - 16
    ensures p16 == 2 * 8 * q8 + b * 8 + (4 * c + 2 * d + e)
    ensures 2 * 8 * q8 + (1 - b) * 8 + (4 * c + 2 * d + e) == 2 * 4 * q4 + c * 4 + (2 * d + e)
    ensures 2 * 4 * q4 + (1 - c) * 4 + (2 * d + e) == 2 * 2 * q2 + d * 2 + e
    ensures 2 * 2 * q2 + (1 - d) * 2 + e == 2 * 1 * q1 + e * 1 + 0
    ensures 2 * 1 * q1 + (1 - e) * 1 + 0 == 31 - j
  {
    var a', b', c', d' := 1 - a, 1 - b, 1 - c, 1 - d;
    p16 := 16 * a' + 8 * b + 4 * c + 2 * d + e;
    q8, q4, q2, q1 := a', 2 * a' + b', 4 * a' + 2 * b' + c', 8 * a' + 4 * b' + 2 * c' + d';
  }

  /** Position j = 2mq + xm + low, with digit x, takes its bit from the position with digit 1 - x. */
  lemma FlipDigit(m: nat, j: nat, q: nat, x: nat, low: nat) returns (r: nat, source: nat)
    requires x < 2 && low < m && j < 32 && j == 2 * m * q + x * m + low
    ensures StagePosition(m, j, q, r, source) && source == 2 * m * q + (1 - x) * m + low
  {
    r := x * m + low;
    source := 2 * m * q + (1 - x) * m + low;
    if x == 0 {
      assert x * m == 0 && (1 - x) * m == m;
    } else {
      assert x * m == m && (1 - x) * m == 0;
    }
  }

  /** Bit j of `bitReverse32(v)` is bit 31-j of v. */
  lemma BitReverse32Bit(v: int, j: nat)
    requires j < 32
    ensures BitAt(ToUint32(BitReverse32(v)), j) == BitAt(ToUint32(v), 31 - j)
  {
    // the binary digits of j
    var e, j1 := j % 2, j / 2;
    var d, j2 := j1 % 2, j1 / 2;
    var c, j3 := j2 % 2, j2 / 2;
    var b, a := j3 % 2, j3 / 2;
    var p16, p8, p4, p2, p1, q8, r8, q4, r4, q2, r2, q1, r1 := StagePositions(j, a, b, c, d, e);
    StagesBit(v, HI_1, LO_1, HI_2, LO_2, HI_4, LO_4, HI_8, LO_8, j, p16, p8, p4, p2, p1,
              q8, r8, q4, r4, q2, r2, q1, r1);
  }

  /** `bitReverse32` is negative exactly when bit 0 of its input is set. */
  lemma BitReverse32Sign(v: int)
    ensures BitReverse32(v) < 0 <==> BitAt(ToUint32(v), 0) == 1
  {
    SignBit(BitReverse32(v));
    BitReverse32Bit(v, 31);
  }

  /** A signed 32-bit value is negative exactly when its bit 31 is set. */
  lemma SignBit(x: int32)
    ensures x < 0 <==> BitAt(ToUint32(x), 31) == 1
  {
    Pow2Of32();
    var u := ToUint32(x);
    if x < 0 {
      DivModUnique(x, TWO_32, -1, x + TWO_32);
    } else {
      DivModUnique(x, TWO_32, 0, x);
    }
    BitAtDiv(u, 31, 0);
    if x < 0 {
      DivPow2Bound(u, 1, 2, 31);
    } else {
      DivPow2Bound(u, 0, 1, 31);
    }
  }

  lemma {:induction false} ReverseBit(v: nat, k: nat, j: nat)
    requires j < k
    ensures BitAt(Reverse(v, k), j) == BitAt(v, k - 1 - j)
  {
    var c, rest := v % 2, Reverse(v / 2, k - 1);
    assert Reverse(v, k) == rest + Pow2(k - 1) * c;
    BitAtSplit(rest, c, k - 1, j);
    if j < k - 1 {
      ReverseBit(v / 2, k - 1, j);
      BitAtStep(v, k - 1 - j);
    }
  }

  lemma ReverseInvolution(v: nat, k: nat)
    requires v < Pow2(k)
    ensures Reverse(Reverse(v, k), k) == v
  {
    forall j | 0 <= j < k
      ensures BitAt(Reverse(Reverse(v, k), k), j) == BitAt(v, j)
    {
      ReverseBit(Reverse(v, k), k, j);
      ReverseBit(v, k, k - 1 - j);
    }
    BitsEqual(Reverse(Reverse(v, k), k), v, k);
  }

  /** For 0 <= v < 2^k, `bitReverse32WithBitCount(v, k)` is the k-bit reversal of v. */
  lemma BitReverseWithBitCountIsReverse(v: nat, k: nat)
    requires k <= 32 && v < Pow2(k)
    ensures BitReverse32WithBitCount(v, k) == Reverse(v, k)
  {
    var r := ToUint32(BitReverse32(v));
    ReversedBits(v);
    SmallValue(v, k);
    var n := ShiftCount(k);
    if k == 0 {
      ReversedZero(r, v, ToUint32(v));
    } else {
      ReversedShift(r, v, ToUint32(v), k);
    }
  }

  /** The count of the final shift, as `>>>` takes it. */
  lemma ShiftCount(k: nat) returns (n: nat)
    requires k <= 32
    ensures n == (32 - k) % 32 && n == if k == 0 then 0 else 32 - k
  {
    n := (32 - k) % 32;
  }

  lemma ReversedBits(v: int)
    ensures forall j :: 0 <= j < 32 ==> BitAt(ToUint32(BitReverse32(v)), j) == BitAt(ToUint32(v), 31 - j)
  {
    forall j | 0 <= j < 32
      ensures BitAt(ToUint32(BitReverse32(v)), j) == BitAt(ToUint32(v), 31 - j)
    {
      BitReverse32Bit(v, j);
    }
  }

  lemma SmallValue(v: nat, k: nat)
    requires k <= 32 && v < Pow2(k)
    ensures ToUint32(v) == v
  {
    Pow2Monotone(k, 32);
    Pow2Of32();
  }

  /** The 32-bit reversal of 0 is 0. */
  lemma ReversedZero(r: nat, v: nat, u: nat)
    requires v == 0 && u == v && r < TWO_32
    requires forall j :: 0 <= j < 32 ==> BitAt(r, j) == BitAt(u, 31 - j)
    ensures r / Pow2(0) == Reverse(v, 0)
  {
    Pow2Of32();
    forall j | 0 <= j < 32
      ensures BitAt(r, j) == BitAt(0, j)
    {
      BitAtOfZero(31 - j);
      BitAtOfZero(j);
    }
    BitsEqual(r, 0, 32);
  }

  /** Shifting the 32-bit reversal of a k-bit value down by 32-k leaves its k-bit reversal. */
  lemma ReversedShift(r: nat, v: nat, u: nat, k: nat)
    requires 1 <= k <= 32 && v < Pow2(k) && u == v && r < TWO_32
    requires forall j :: 0 <= j < 32 ==> BitAt(r, j) == BitAt(u, 31 - j)
    ensures r / Pow2(32 - k) == Reverse(v, k)
  {
    Pow2Of32();
    Pow2Monotone(k, 32);
    var s := 32 - k;
    DivPow2Bound(r, 0, TWO_32, s);
    forall j | 0 <= j < 32
      ensures BitAt(r / Pow2(s), j) == BitAt(Reverse(v, k), j)
    {
      BitAtDiv(r, s, j);
      if j < k {
        ReverseBit(v, k, j);
      } else {
        BitAtHigh(r, 32, j + s);
        BitAtHigh(Reverse(v, k), k, j);
      }
    }
    BitsEqual(r / Pow2(s), Reverse(v, k), 32);
  }
  /** `bitReverse32WithBitCount(., k)` is an involution on [0, 2^k). */
  lemma BitReverseWithBitCountInvolution(v: nat, k: nat)
    requires k <= 32 && v < Pow2(k)
    ensures 0 <= BitReverse32WithBitCount(v, k) < Pow2(k)
    ensures BitReverse32WithBitCount(BitReverse32WithBitCount(v, k), k) == v
  {
    BitReverseWithBitCountIsReverse(v, k);
    BitReverseWithBitCountIsReverse(Reverse(v, k), k);
    ReverseInvolution(v, k);
  }
}
