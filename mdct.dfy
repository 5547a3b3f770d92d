/**
 * The inverse MDCT of the decoder: the shared, lazily grown trigonometric and
 * shuffle tables, the shuffle table as a bit-reversed Gray code, and the buffer
 * and overlap bookkeeping of `RunImdct` over real numbers.
 */
module Mdct {
  import opened JsInt
  import opened Bit
  import opened Wrappers
  import opened Overlap

  // ---------------------------------------------------------------------------
  // The shuffle table: a k-bit reversed Gray code

  /** The binary-reflected Gray code of x: bit j is bit j xor bit j+1 of x. */
  function Gray(x: nat): nat
  {
    if x == 0 then 0 else 2 * Gray(x / 2) + (if x % 2 != (x / 2) % 2 then 1 else 0)
  }

  /** The inverse of the Gray code: bit j is the xor of bits j and up of g. */
  function GrayDecode(g: nat): nat
  {
    if g == 0 then 0
    else
      var h := GrayDecode(g / 2);
      2 * h + (if g % 2 != h % 2 then 1 else 0)
  }

  lemma {:induction false} GrayDecodeOfGray(x: nat)
    ensures GrayDecode(Gray(x)) == x
  {
    if x > 0 {
      var g := Gray(x);
      var b := if x % 2 != (x / 2) % 2 then 1 else 0;
      assert g == 2 * Gray(x / 2) + b;
      assert g / 2 == Gray(x / 2) && g % 2 == b;
      GrayDecodeOfGray(x / 2);
      if g == 0 {
        GrayZero(x);
      }
    }
  }

  /** Only 0 has Gray code 0. */
  lemma {:induction false} GrayZero(x: nat)
    requires Gray(x) == 0
    ensures x == 0
  {
    if x > 0 {
      assert Gray(x / 2) == 0 && x % 2 == (x / 2) % 2;
      GrayZero(x / 2);
    }
  }

  lemma {:induction false} GrayOfGrayDecode(g: nat)
    ensures Gray(GrayDecode(g)) == g
  {
    if g > 0 {
      var h := GrayDecode(g / 2);
      var x := GrayDecode(g);
      assert x == 2 * h + (if g % 2 != h % 2 then 1 else 0);
      assert x / 2 == h && x % 2 == (if g % 2 != h % 2 then 1 else 0);
      GrayOfGrayDecode(g / 2);
    }
  }

  /** The Gray code keeps k-bit values within k bits, and so does its inverse. */
  lemma {:induction false} GrayBounded(x: nat, k: nat)
    requires x < Pow2(k)
    ensures Gray(x) < Pow2(k) && GrayDecode(x) < Pow2(k)
  {
    if x > 0 {
      assert k > 0;
      assert x / 2 < Pow2(k - 1);
      GrayBounded(x / 2, k - 1);
    }
  }

  /** `x ^ (x / 2)` on an n-bit natural is its Gray code. */
  lemma {:induction false} BitXorGray(x: nat, n: nat)
    requires x < Pow2(n)
    ensures BitXor(x, x / 2, n) == Gray(x)
  {
    if n > 0 {
      assert x / 2 < Pow2(n - 1);
      BitXorGray(x / 2, n - 1);
    }
  }

  /** Entry i of `GenerateShuffleTable(k)`, with the operators as the source applies them. */
  function ShuffleEntry(k: int, i: int): int
  {
    // `i / 2` is a fraction for odd i; `^` truncates it to an integer
    BitReverse32WithBitCount(Xor(i, i / 2), k)
  }

  /** A shuffle entry is the k-bit reversal of the Gray code of i. */
  lemma ShuffleEntryIsReversedGray(k: nat, i: nat)
    requires k <= 31 && i < Pow2(k)
    ensures ShuffleEntry(k, i) == Reverse(Gray(i), k)
  {
    GrayWord(i, k);
    XorHalf(i, Gray(i));
    BitReverseWithBitCountIsReverse(Gray(i), k);
  }

  lemma ShuffleEntryInWord(k: nat, i: nat)
    requires k <= 30 && i < Pow2(k)
    ensures ToInt32(ShuffleEntry(k, i)) == Reverse(Gray(i), k)
  {
    ShuffleEntryIsReversedGray(k, i);
    ReverseInWord(Gray(i), k);
  }

  lemma ReverseInWord(g: nat, k: nat)
    requires k <= 30
    ensures ToInt32(Reverse(g, k)) == Reverse(g, k)
  {
    Pow2Monotone(k, 31);
    Pow2Word(31);
  }

  lemma GrayWord(i: nat, k: nat)
    requires k <= 31 && i < Pow2(k)
    ensures i < TWO_31 && i / 2 < TWO_31 && BitXor(i, i / 2, 32) == Gray(i) && Gray(i) < Pow2(k)
    ensures Gray(i) < TWO_31
  {
    Pow2Monotone(k, 31);
    Pow2Monotone(k, 32);
    Pow2Word(31);
    GrayBounded(i, k);
    BitXorGray(i, 32);
  }

  lemma XorHalf(i: nat, g: nat)
    requires i < TWO_31 && i / 2 < TWO_31 && BitXor(i, i / 2, 32) == g && g < TWO_31
    ensures Xor(i, i / 2) == g
  {
  }

  /** The shuffle table of size 2^k: entry i is the k-bit reversal of the Gray code of i. */
  function ShuffleTable(k: nat): seq<int>
  {
    seq(Pow2(k), i requires 0 <= i < Pow2(k) => Reverse(Gray(i), k))
  }

  /** The first n entries of a shuffle table of size 2^k. */
  function ShufflePrefix(k: nat, n: nat): (t: seq<int>)
    ensures |t| == n
  {
    if n == 0 then [] else ShufflePrefix(k, n - 1) + [Reverse(Gray(n - 1), k)]
  }

  /** Built entry by entry, the whole prefix is the shuffle table. */
  lemma ShufflePrefixIsTable(k: nat)
    ensures ShufflePrefix(k, Pow2(k)) == ShuffleTable(k)
  {
    var n := Pow2(k);
    forall i | 0 <= i < n
      ensures ShufflePrefix(k, n)[i] == ShuffleTable(k)[i]
    {
      ShufflePrefixAt(k, n, i);
    }
  }

  lemma {:induction false} ShufflePrefixAt(k: nat, n: nat, i: nat)
    requires i < n
    ensures ShufflePrefix(k, n)[i] == Reverse(Gray(i), k)
  {
    if i < n - 1 {
      ShufflePrefixAt(k, n - 1, i);
    }
  }

  /** t holds every value of [0, n) exactly once. */
  predicate IsPermutation(t: seq<int>, n: nat)
  {
    && |t| == n
    && (forall i :: 0 <= i < n ==> 0 <= t[i] < n)
    && (forall i, j :: 0 <= i < j < n ==> t[i] != t[j])
    && (forall y :: 0 <= y < n ==> y in t)
  }

  /** The shuffle table is a permutation of [0, 2^k). */
  lemma ShuffleTableIsPermutation(k: nat)
    requires k <= 31
    ensures IsPermutation(ShuffleTable(k), Pow2(k))
  {
    var t, n := ShuffleTable(k), Pow2(k);
    forall i, j | 0 <= i < j < n
      ensures t[i] != t[j]
    {
      GrayBounded(i, k);
      GrayBounded(j, k);
      ReverseInvolution(Gray(i), k);
      ReverseInvolution(Gray(j), k);
      GrayDecodeOfGray(i);
      GrayDecodeOfGray(j);
    }
    forall y | 0 <= y < n
      ensures y in t
    {
      var g := Reverse(y, k);
      var i := GrayDecode(g);
      GrayBounded(g, k);
      GrayOfGrayDecode(g);
      ReverseInvolution(y, k);
      assert t[i] == y;
    }
  }

  /** Allocates and fills the shuffle table of size 2^sizeBits. */
  method GenerateShuffleTable(sizeBits: nat) returns (table: array<int32>)
    requires sizeBits <= 30
    ensures fresh(table)
    ensures table[..] == ShuffleTable(sizeBits)
  {
    var size := ShiftedOne(sizeBits);
    table := new int32[size];
    FillShuffleTable(table, sizeBits);
    ShufflePrefixIsTable(sizeBits);
  }

  /** The loop of `GenerateShuffleTable`: entry i is computed from i alone. */
  method FillShuffleTable(table: array<int32>, sizeBits: nat)
    requires sizeBits <= 30 && table.Length == Pow2(sizeBits)
    modifies table
    ensures table[..] == ShufflePrefix(sizeBits, table.Length)
  {
    var i := 0;
    while i < table.Length
      invariant 0 <= i <= table.Length
      invariant table[..i] == ShufflePrefix(sizeBits, i)
    {
      var e := ShuffleValue(sizeBits, i);
      table[i] := e;
      assert table[..i + 1] == table[..i] + [e];
      i := i + 1;
    }
    assert table[..] == table[..table.Length];
  }

  /** `1 << n`, the size of the shuffle table. */
  method ShiftedOne(n: nat) returns (size: nat)
    requires n <= 30
    ensures size == Pow2(n)
  {
    ShlOne(n);
    size := Shl(1, n);
  }

  /** Entry i of the shuffle table, computed as `GenerateShuffleTable` does and stored as a 32-bit value. */
  method ShuffleValue(k: nat, i: nat) returns (e: int32)
    requires k <= 30 && i < Pow2(k)
    ensures ShufflePrefix(k, i + 1) == ShufflePrefix(k, i) + [e as int]
  {
    ShuffleEntryInWord(k, i);
    e := ToInt32(ShuffleEntry(k, i));
  }

  // ---------------------------------------------------------------------------
  // The shared tables

  /** The sine and cosine tables of one size, as `GenerateTrigTables` returns them. */
  datatype Trig = Trig(sin: seq<real>, cos: seq<real>)

  /** The trigonometric tables of every size have 2^k entries. */
  ghost predicate TrigShaped(trig: nat -> Trig)
  {
    forall k: nat :: |trig(k).sin| == Pow2(k) && |trig(k).cos| == Pow2(k)
  }

  /** Entry k of ts is the shuffle table of size 2^k. */
  predicate ShuffleTables(ts: seq<seq<int>>)
  {
    forall k: nat :: k < |ts| ==> ts[k] == ShuffleTable(k)
  }

  lemma ShuffleTablesGrow(ts: seq<seq<int>>, t: seq<int>)
    requires ShuffleTables(ts) && t == ShuffleTable(|ts|)
    ensures ShuffleTables(ts + [t])
  {
  }

  /** The static table lists of `Mdct`, shared by every transform. */
  class MdctTables {
    var tableBits: int
    var sinTables: seq<seq<real>>
    var cosTables: seq<seq<real>>
    var shuffleTables: seq<seq<int>>

    /** Every list holds the tables of sizes 2^0 .. 2^tableBits. */
    predicate Shaped()
      reads this
    {
      && tableBits >= -1
      && |sinTables| == |cosTables| == |shuffleTables| == tableBits + 1
      && (forall k: nat :: k < |sinTables| ==> |sinTables[k]| == Pow2(k) && |cosTables[k]| == Pow2(k))
      && ShuffleTables(shuffleTables)
    }

    /** The lists hold what the generators produce. */
    predicate Generated(trig: nat -> Trig)
      reads this
    {
      && Shaped()
      && (forall k: nat :: k < |sinTables| ==> sinTables[k] == trig(k).sin && cosTables[k] == trig(k).cos)
    }

    constructor ()
      ensures tableBits == -1 && sinTables == [] && cosTables == [] && shuffleTables == []
    {
      tableBits := -1;
      sinTables := [];
      cosTables := [];
      shuffleTables := [];
    }

    /** Grows the lists so that they cover sizes up to 2^maxBits. */
    method SetTables(maxBits: int, trig: nat -> Trig)
      requires Generated(trig) && TrigShaped(trig) && maxBits <= 30
      modifies this
      ensures Generated(trig)
      ensures tableBits == if maxBits > old(tableBits) then maxBits else old(tableBits)
      ensures sinTables[..|old(sinTables)|] == old(sinTables)
      ensures cosTables[..|old(cosTables)|] == old(cosTables)
      ensures shuffleTables[..|old(shuffleTables)|] == old(shuffleTables)
      ensures maxBits <= old(tableBits) ==> unchanged(this)
    {
      if maxBits > tableBits {
        var i := tableBits + 1;
        while i <= maxBits
          invariant old(tableBits) + 1 <= i <= maxBits + 1
          invariant tableBits == old(tableBits)
          invariant |sinTables| == |cosTables| == |shuffleTables| == i
          invariant forall k: nat :: k < i ==> sinTables[k] == trig(k).sin && cosTables[k] == trig(k).cos
          invariant ShuffleTables(shuffleTables)
          invariant sinTables[..|old(sinTables)|] == old(sinTables)
          invariant cosTables[..|old(cosTables)|] == old(cosTables)
          invariant shuffleTables[..|old(shuffleTables)|] == old(shuffleTables)
        {
          var t := trig(i);
          sinTables := sinTables + [t.sin];
          cosTables := cosTables + [t.cos];
          var shuffle := GenerateShuffleTable(i);
          ShuffleTablesGrow(shuffleTables, shuffle[..]);
          shuffleTables := shuffleTables + [shuffle[..]];
          i := i + 1;
        }
        tableBits := maxBits;
      }
    }
  }

  /** a[0..n) is all zero. */
  ghost predicate ZeroUpTo(a: array<real>, n: int)
    reads a
    requires n <= a.Length
  {
    forall i :: 0 <= i < n ==> a[i] == 0.0
  }

  /**
   * The sizes of stage s of `Dct4`: 2^s blocks of 2 * 2^(bits-1-s) samples, which together
   * cover the 2^bits buffer, each holding 2^(bits-2-s) butterflies.
   */
  lemma StageSizes(bits: nat, stage: nat, blockCount: nat, blockSize: nat, blockHalfSize: nat)
    requires 1 <= bits <= 30 && stage < bits - 1
    requires blockCount == Pow2(stage) && blockSize == Pow2(bits - 1 - stage) && blockHalfSize == Pow2(bits - 2 - stage)
    ensures blockSize == 2 * blockHalfSize
    ensures blockCount * (2 * blockSize) == Pow2(bits)
    ensures WholeBlocks(Pow2(bits), 4 * blockHalfSize)
  {
    var n := bits - 1 - stage;
    assert Pow2(n) == 2 * Pow2(n - 1);
    Pow2Add(stage, n);
    assert stage + n == bits - 1;
    assert Pow2(bits) == 2 * Pow2(bits - 1);
    MulAssoc(blockCount, 2, blockSize);
    BlocksAreWhole(blockCount, 4 * blockHalfSize);
  }

  /** The front position `(block * blockSize + i) * 2` is i pairs into the block's 2 * blockSize samples. */
  lemma FrontPosition(block: nat, blockSize: nat, i: nat, base: nat)
    requires base == block * (2 * blockSize)
    ensures (block * blockSize + i) * 2 == base + 2 * i
  {
    MulAssoc(block, 2, blockSize);
  }

  /**
   * Output `part` of the butterfly over the front pair (x0, x1) and the back pair (y0, y1):
   * 0 and 1 are the sums, 2 and 3 the difference rotated by the angle.
   */
  function ButterflyValue(x0: real, x1: real, y0: real, y1: real, sin: real, cos: real, part: nat): real
  {
    var a, b := x0 - y0, x1 - y1;
    if part == 0 then x0 + y0
    else if part == 1 then x1 + y1
    else if part == 2 then a * cos + b * sin
    else a * sin - b * cos
  }

  /** d is a whole number of blocks of `span` samples. */
  ghost predicate WholeBlocks(d: nat, span: nat)
    requires span > 0
    decreases d
  {
    d == 0 || (d >= span && WholeBlocks(d - span, span))
  }

  /** `count` blocks are a whole number of blocks. */
  lemma {:induction false} BlocksAreWhole(count: nat, span: nat)
    requires span > 0
    ensures WholeBlocks(count * span, span)
  {
    if count > 0 {
      MulDist(count, 1, span);
      BlocksAreWhole(count - 1, span);
    }
  }

  /** Two different block starts lie at least a block apart. */
  lemma {:induction false} BlocksApart(a: nat, b: nat, span: nat)
    requires span > 0 && WholeBlocks(a, span) && WholeBlocks(b, span) && a < b
    ensures a + span <= b
    decreases a
  {
    if a > 0 {
      BlocksApart(a - span, b - span, span);
    }
  }

  /** The start of the block of `span` samples that sample j falls in. */
  function BlockStart(j: nat, span: nat): (r: nat)
    requires span > 0
    ensures r <= j < r + span && WholeBlocks(r, span)
    decreases j
  {
    if j < span then 0 else span + BlockStart(j - span, span)
  }

  /** The block of any sample of a whole number of blocks lies within them. */
  lemma BlockWithin(j: nat, n: nat, span: nat)
    requires span > 0 && WholeBlocks(n, span) && j < n
    ensures BlockStart(j, span) + span <= n
  {
    var start := BlockStart(j, span);
    if start < n {
      BlocksApart(start, n, span);
    }
  }

  /**
   * Where sample j of a butterfly stage comes from: output `part` (0 to 3) of the butterfly
   * over the pairs at `front` and `back` with angle `angle`.
   */
  datatype Tap = Tap(front: nat, back: nat, angle: nat, part: nat)

  /**
   * The tap of sample j in a stage of blocks of 4 * half samples: the front half of a block
   * holds the sums of its `half` butterflies pair by pair, the back half their rotated
   * differences, and butterfly i joins pair i of each half at angle i.
   */
  function TapOf(j: nat, half: nat): (t: Tap)
    requires half >= 1
    ensures t.angle < half && t.part < 4 && t.back == t.front + 2 * half
    ensures BlockStart(j, 4 * half) <= t.front && t.back + 1 < BlockStart(j, 4 * half) + 4 * half
  {
    var start := BlockStart(j, 4 * half);
    BlockTap(start, j - start, half)
  }

  /** The tap at `offset` into the block at `start`. */
  function BlockTap(start: nat, offset: nat, half: nat): (t: Tap)
    requires half >= 1 && offset < 4 * half
    ensures t.angle < half && t.part < 4 && t.back == t.front + 2 * half
    ensures start <= t.front && t.back + 1 < start + 4 * half
  {
    var back := offset >= 2 * half;
    var pair := if back then offset - 2 * half else offset;
    var f := start + pair / 2 * 2;
    Tap(f, f + 2 * half, pair / 2, (if back then 2 else 0) + pair % 2)
  }

  /** Sample j is output `part` of butterfly `angle` of its block: the front pair for parts 0 and 1, the back pair for 2 and 3. */
  lemma TapPosition(j: nat, half: nat)
    requires half >= 1
    ensures var t := TapOf(j, half);
      && t.front == BlockStart(j, 4 * half) + 2 * t.angle
      && j == t.front + (if t.part >= 2 then 2 * half else 0) + t.part % 2
  {
  }

  /** The value a tap takes from the buffer. */
  function TapValue(s: seq<real>, t: Tap, sinTable: seq<real>, cosTable: seq<real>): real
    requires t.front + 1 < |s| && t.back + 1 < |s| && t.angle < |sinTable| && t.angle < |cosTable|
  {
    ButterflyValue(s[t.front], s[t.front + 1], s[t.back], s[t.back + 1], sinTable[t.angle], cosTable[t.angle], t.part)
  }

  /**
   * One butterfly stage of `Dct4` as values: the buffer is a run of blocks of 4 * half samples,
   * and in each block butterfly i (of `half`) joins pair i of the front half with pair i of
   * the back half at angle i.
   */
  function ButterflyStage(s: seq<real>, half: nat, sinTable: seq<real>, cosTable: seq<real>): (r: seq<real>)
    requires half >= 1 && WholeBlocks(|s|, 4 * half) && |sinTable| >= half && |cosTable| >= half
    ensures |r| == |s|
  {
    seq(|s|, j requires 0 <= j < |s| =>
      BlockWithin(j, |s|, 4 * half);
      TapValue(s, TapOf(j, half), sinTable, cosTable))
  }

  /** Butterfly i of the block at `base` has put its four outputs, computed from s, into r. */
  ghost predicate ButterflyDone(s: seq<real>, r: seq<real>, base: nat, half: nat,
                                sinTable: seq<real>, cosTable: seq<real>, i: nat)
    requires |r| == |s| && base + 4 * half <= |s| && i < half && i < |sinTable| && i < |cosTable|
  {
    var f, b := base + 2 * i, base + 2 * i + 2 * half;
    var x0, x1, y0, y1 := s[f], s[f + 1], s[b], s[b + 1];
    && r[f] == ButterflyValue(x0, x1, y0, y1, sinTable[i], cosTable[i], 0)
    && r[f + 1] == ButterflyValue(x0, x1, y0, y1, sinTable[i], cosTable[i], 1)
    && r[b] == ButterflyValue(x0, x1, y0, y1, sinTable[i], cosTable[i], 2)
    && r[b + 1] == ButterflyValue(x0, x1, y0, y1, sinTable[i], cosTable[i], 3)
  }

  /** The first `count` butterflies of the block at `base` are done. */
  ghost predicate BlockDone(s: seq<real>, r: seq<real>, base: nat, half: nat,
                            sinTable: seq<real>, cosTable: seq<real>, count: nat)
    requires |r| == |s| && base + 4 * half <= |s| && count <= half && count <= |sinTable| && count <= |cosTable|
  {
    forall i :: 0 <= i < count ==> ButterflyDone(s, r, base, half, sinTable, cosTable, i)
  }

  /** Every block that ends by `end` has all its butterflies done. */
  ghost predicate StageDoneTo(s: seq<real>, r: seq<real>, end: nat, half: nat, sinTable: seq<real>, cosTable: seq<real>)
    requires half >= 1 && |r| == |s| && end <= |s| && |sinTable| >= half && |cosTable| >= half
  {
    forall base: nat {:trigger BlockDone(s, r, base, half, sinTable, cosTable, half)} ::
      WholeBlocks(base, 4 * half) && base + 4 * half <= end ==> BlockDone(s, r, base, half, sinTable, cosTable, half)
  }

  /**
   * What the loops of one stage establish: every butterfly of every block has written its
   * four outputs. This pins the whole buffer down to `ButterflyStage`.
   */
  lemma StageDoneExact(s: seq<real>, r: seq<real>, half: nat, sinTable: seq<real>, cosTable: seq<real>)
    requires half >= 1 && WholeBlocks(|s|, 4 * half) && |sinTable| >= half && |cosTable| >= half
    requires |r| == |s| && StageDoneTo(s, r, |s|, half, sinTable, cosTable)
    ensures r == ButterflyStage(s, half, sinTable, cosTable)
  {
    var next := ButterflyStage(s, half, sinTable, cosTable);
    forall j | 0 <= j < |s|
      ensures r[j] == next[j]
    {
      TapAtDone(s, r, half, sinTable, cosTable, j);
    }
  }

  /** Sample j of a finished stage holds its tap's value. */
  lemma TapAtDone(s: seq<real>, r: seq<real>, half: nat, sinTable: seq<real>, cosTable: seq<real>, j: nat)
    requires half >= 1 && WholeBlocks(|s|, 4 * half) && |sinTable| >= half && |cosTable| >= half
    requires |r| == |s| && StageDoneTo(s, r, |s|, half, sinTable, cosTable) && j < |s|
    ensures TapOf(j, half).back + 1 < |s|
    ensures r[j] == TapValue(s, TapOf(j, half), sinTable, cosTable)
  {
    BlockWithin(j, |s|, 4 * half);
    TapPosition(j, half);
    var t := TapOf(j, half);
    var base := BlockStart(j, 4 * half);
    assert BlockDone(s, r, base, half, sinTable, cosTable, half);
    assert ButterflyDone(s, r, base, half, sinTable, cosTable, t.angle);
  }

  /** The butterflies done in one block join those of the blocks before it. */
  lemma StageDoneGrows(s: seq<real>, r: seq<real>, base: nat, half: nat, sinTable: seq<real>, cosTable: seq<real>)
    requires half >= 1 && |r| == |s| && base + 4 * half <= |s| && WholeBlocks(base, 4 * half)
    requires |sinTable| >= half && |cosTable| >= half
    requires StageDoneTo(s, r, base, half, sinTable, cosTable)
    requires BlockDone(s, r, base, half, sinTable, cosTable, half)
    ensures StageDoneTo(s, r, base + 4 * half, half, sinTable, cosTable)
  {
    forall b: nat | WholeBlocks(b, 4 * half) && b + 4 * half <= base + 4 * half
      ensures BlockDone(s, r, b, half, sinTable, cosTable, half)
    {
      if b < base {
        BlocksApart(b, base, 4 * half);
      }
    }
  }

  /** Blocks that end by `end` keep their butterflies while no sample before `end` changes. */
  lemma StageDoneKept(s: seq<real>, r: seq<real>, r': seq<real>, end: nat, half: nat, sinTable: seq<real>, cosTable: seq<real>)
    requires half >= 1 && |r| == |s| == |r'| && end <= |s| && |sinTable| >= half && |cosTable| >= half
    requires StageDoneTo(s, r, end, half, sinTable, cosTable)
    requires forall j :: 0 <= j < end ==> r'[j] == r[j]
    ensures StageDoneTo(s, r', end, half, sinTable, cosTable)
  {
    forall b: nat | WholeBlocks(b, 4 * half) && b + 4 * half <= end
      ensures BlockDone(s, r', b, half, sinTable, cosTable, half)
    {
      assert BlockDone(s, r, b, half, sinTable, cosTable, half);
      forall i | 0 <= i < half
        ensures ButterflyDone(s, r', b, half, sinTable, cosTable, i)
      {
        assert ButterflyDone(s, r, b, half, sinTable, cosTable, i);
      }
    }
  }

  /** Butterfly i of a block, once done, joins the ones before it, which keep the outputs it does not touch. */
  lemma BlockDoneGrows(s: seq<real>, r: seq<real>, r': seq<real>, base: nat, half: nat,
                       sinTable: seq<real>, cosTable: seq<real>, i: nat)
    requires |r| == |s| == |r'| && base + 4 * half <= |s| && i < half && i < |sinTable| && i < |cosTable|
    requires BlockDone(s, r, base, half, sinTable, cosTable, i)
    requires ButterflyDone(s, r', base, half, sinTable, cosTable, i)
    requires forall j :: base <= j < base + 2 * i || base + 2 * half <= j < base + 2 * half + 2 * i ==> r'[j] == r[j]
    ensures BlockDone(s, r', base, half, sinTable, cosTable, i + 1)
  {
    forall k | 0 <= k < i + 1
      ensures ButterflyDone(s, r', base, half, sinTable, cosTable, k)
    {
      if k < i {
        assert ButterflyDone(s, r, base, half, sinTable, cosTable, k);
      }
    }
  }

  /** The butterfly tables reach every half-size a 2^bits transform uses. */
  predicate AngleTables(bits: nat, sinTables: seq<seq<real>>, cosTables: seq<seq<real>>)
  {
    && |sinTables| >= bits && |cosTables| >= bits
    && forall k: nat :: k < bits ==> |sinTables[k]| == Pow2(k) && |cosTables[k]| == Pow2(k)
  }

  /**
   * The buffer after the first `stages` butterfly stages of a 2^bits-sample `Dct4`: stage k
   * splits the buffer into 2^k blocks of 4 * 2^(bits-2-k) samples and uses the angles of
   * table bits - 2 - k.
   */
  function Butterflies(s: seq<real>, bits: nat, stages: nat, sinTables: seq<seq<real>>, cosTables: seq<seq<real>>): (r: seq<real>)
    requires 1 <= bits <= 30 && stages <= bits - 1 && |s| == Pow2(bits) && AngleTables(bits, sinTables, cosTables)
    ensures |r| == |s|
    decreases stages
  {
    if stages == 0 then s
    else
      var k := stages - 1;
      StageSizes(bits, k, Pow2(k), Pow2(bits - 1 - k), Pow2(bits - 2 - k));
      ButterflyStage(Butterflies(s, bits, k, sinTables, cosTables), Pow2(bits - 2 - k),
        sinTables[bits - 2 - k], cosTables[bits - 2 - k])
  }

  /** Stage k of the 2^bits transform, whose butterflies use table `tableBits` of `half` angles, follows the k before it. */
  lemma ButterfliesStep(s: seq<real>, bits: nat, k: nat, tableBits: nat, half: nat, sinTables: seq<seq<real>>, cosTables: seq<seq<real>>)
    requires 1 <= bits <= 30 && k < bits - 1 && |s| == Pow2(bits) && AngleTables(bits, sinTables, cosTables)
    requires tableBits == bits - 2 - k && half == Pow2(tableBits)
    ensures half >= 1 && WholeBlocks(|s|, 4 * half) && |sinTables[tableBits]| == half && |cosTables[tableBits]| == half
    ensures Butterflies(s, bits, k + 1, sinTables, cosTables)
      == ButterflyStage(Butterflies(s, bits, k, sinTables, cosTables), half, sinTables[tableBits], cosTables[tableBits])
  {
    StageSizes(bits, k, Pow2(k), Pow2(bits - 1 - k), half);
  }

  /** All of s is zero. */
  ghost predicate Silent(s: seq<real>)
  {
    forall j :: 0 <= j < |s| ==> s[j] == 0.0
  }

  /** A butterfly stage leaves a silent buffer as it is. */
  lemma ButterflyStageOfSilence(s: seq<real>, half: nat, sinTable: seq<real>, cosTable: seq<real>)
    requires half >= 1 && WholeBlocks(|s|, 4 * half) && |sinTable| >= half && |cosTable| >= half
    requires Silent(s)
    ensures ButterflyStage(s, half, sinTable, cosTable) == s
  {
    var r := ButterflyStage(s, half, sinTable, cosTable);
    forall j | 0 <= j < |s|
      ensures r[j] == s[j]
    {
      BlockWithin(j, |s|, 4 * half);
      var t := TapOf(j, half);
      assert s[t.front] == s[t.back] == s[t.front + 1] == s[t.back + 1] == 0.0;
    }
  }

  /** Any number of butterfly stages leave a silent buffer as it is. */
  lemma {:induction false} ButterfliesOfSilence(s: seq<real>, bits: nat, stages: nat, sinTables: seq<seq<real>>, cosTables: seq<seq<real>>)
    requires 1 <= bits <= 30 && stages <= bits - 1 && |s| == Pow2(bits) && AngleTables(bits, sinTables, cosTables)
    requires Silent(s)
    ensures Butterflies(s, bits, stages, sinTables, cosTables) == s
    decreases stages
  {
    if stages > 0 {
      var k := stages - 1;
      var tableBits := bits - 2 - k;
      var half := Pow2(tableBits);
      ButterfliesOfSilence(s, bits, k, sinTables, cosTables);
      ButterfliesStep(s, bits, k, tableBits, half, sinTables, cosTables);
      ButterflyStageOfSilence(s, half, sinTables[tableBits], cosTables[tableBits]);
      assert Butterflies(s, bits, k, sinTables, cosTables) == s;
    }
  }

  /**
   * The DCT-IV core of `Dct4` before the shuffle: the input's first 2^bits samples pre-rotated
   * with the angles of table `bits`, then all bits - 1 butterfly stages.
   */
  function DctCore(input: seq<real>, bits: nat, sinTables: seq<seq<real>>, cosTables: seq<seq<real>>): (r: seq<real>)
    requires 1 <= bits <= 30 && |input| == Pow2(bits) && AngleTables(bits + 1, sinTables, cosTables)
    ensures |r| == Pow2(bits)
  {
    assert |input| == 2 * Pow2(bits - 1);
    Butterflies(PreRotated(input, sinTables[bits], cosTables[bits]), bits, bits - 1, sinTables, cosTables)
  }

  /** A silent input gives a silent DCT-IV core. */
  lemma DctCoreOfSilence(input: seq<real>, bits: nat, sinTables: seq<seq<real>>, cosTables: seq<seq<real>>)
    requires 1 <= bits <= 30 && |input| == Pow2(bits) && AngleTables(bits + 1, sinTables, cosTables)
    requires forall j :: 0 <= j < |input| ==> input[j] == 0.0
    ensures forall j :: 0 <= j < |input| ==> DctCore(input, bits, sinTables, cosTables)[j] == 0.0
  {
    assert |input| == 2 * Pow2(bits - 1);
    PreRotatedOfSilence(input, sinTables[bits], cosTables[bits]);
    ButterfliesOfSilence(PreRotated(input, sinTables[bits], cosTables[bits]), bits, bits - 1, sinTables, cosTables);
  }

  /** One inverse MDCT: its size, window, scale, overlap history and scratch buffers. */
  class Mdct {
    const mdctBits: nat
    const mdctSize: nat
    const scale: real
    const tables: MdctTables

    const mdctPrevious: array<real>
    const imdctPrevious: array<real>
    const scratchMdct: array<real>
    const scratchDct: array<real>
    const imdctWindow: array<real>

    /** The transform is ready once its buffers are laid out and the shared tables reach its size. */
    ghost predicate Valid()
      reads this, tables
    {
      && Layout()
      && tables.Shaped() && mdctBits <= tables.tableBits
    }

    /** The transform covers 2^mdctBits samples and its buffers are separate arrays. */
    ghost predicate Layout()
    {
      && 1 <= mdctBits <= 30
      && mdctSize == Pow2(mdctBits)
      && mdctPrevious.Length == imdctPrevious.Length == scratchMdct.Length == scratchDct.Length == mdctSize
      && imdctWindow.Length >= mdctSize
      && mdctPrevious != imdctPrevious && mdctPrevious != scratchMdct && mdctPrevious != scratchDct
      && imdctPrevious != scratchMdct && imdctPrevious != scratchDct && scratchMdct != scratchDct
      && imdctWindow !in {mdctPrevious, imdctPrevious, scratchMdct, scratchDct}
    }

    /** The pieces of `new Mdct(mdctBits, window, scale)` after the window check. */
    constructor (mdctBits: nat, window: array<real>, scale: real, tables: MdctTables)
      requires 1 <= mdctBits <= 30 && tables.Shaped() && mdctBits <= tables.tableBits
      requires window.Length >= Pow2(mdctBits)
      ensures Valid()
      ensures this.mdctBits == mdctBits && this.scale == scale && this.tables == tables
      ensures imdctWindow == window
      ensures fresh(mdctPrevious) && fresh(imdctPrevious) && fresh(scratchMdct) && fresh(scratchDct)
      ensures ZeroUpTo(mdctPrevious, mdctSize) && ZeroUpTo(imdctPrevious, mdctSize)
      ensures ZeroUpTo(scratchMdct, mdctSize) && ZeroUpTo(scratchDct, mdctSize)
    {
      ShlOne(mdctBits);
      var size := Shl(1, mdctBits);
      this.mdctBits := mdctBits;
      this.mdctSize := size;
      this.scale := scale;
      this.tables := tables;
      mdctPrevious := new real[size](_ => 0.0);
      imdctPrevious := new real[size](_ => 0.0);
      scratchMdct := new real[size](_ => 0.0);
      scratchDct := new real[size](_ => 0.0);
      imdctWindow := window;
    }

    /**
     * The DCT-IV of `input[0..mdctSize)` into `output`: a pre-rotation into the
     * scratch buffer, mdctBits - 1 butterfly stages in place, and the shuffled,
     * scaled copy out.
     */
    method Dct4(input: array<real>, output: array<real>)
      requires Valid()
      requires input.Length >= mdctSize && output.Length >= mdctSize
      requires input != scratchDct && output != scratchDct && input != output
      modifies scratchDct, output
      ensures IsPermutation(ShuffleTable(mdctBits), mdctSize)
      ensures scratchDct[..] == DctCore(input[..mdctSize], mdctBits, tables.sinTables, tables.cosTables)
      ensures output[..mdctSize] == Shuffled(scratchDct[..], ShuffleTable(mdctBits), scale)
      ensures output[mdctSize..] == old(output[mdctSize..])
      ensures ZeroUpTo(input, mdctSize) ==> ZeroUpTo(scratchDct, mdctSize) && ZeroUpTo(output, mdctSize)
    {
      DctCoreRun(input, scratchDct, mdctBits, tables.sinTables, tables.cosTables);
      ShuffleTableIsPermutation(mdctBits);
      ShuffleOut(scratchDct, output, tables.shuffleTables[mdctBits], scale);
    }

    /**
     * One inverse transform: the DCT-IV of the spectrum into the scratch buffer,
     * then windowed overlap-add of its halves with the previous frame's history,
     * and the new history for the next frame.
     */
    method RunImdct(input: array<real>, output: array<real>) returns (r: Outcome<string>)
      requires Valid()
      requires input != output
      requires input !in [mdctPrevious, imdctPrevious, scratchMdct, scratchDct]
      requires output !in [mdctPrevious, imdctPrevious, scratchMdct, scratchDct, imdctWindow]
      modifies output, scratchMdct, scratchDct, imdctPrevious
      ensures r.Fail? <==> input.Length < mdctSize || output.Length < mdctSize
      ensures r.Fail? ==> unchanged(output, scratchMdct, scratchDct, imdctPrevious)
      ensures r.Pass? ==> IsPermutation(ShuffleTable(mdctBits), mdctSize)
      ensures r.Pass? ==> scratchDct[..] == DctCore(input[..mdctSize], mdctBits, tables.sinTables, tables.cosTables)
      ensures r.Pass? ==> scratchMdct[..] == Shuffled(scratchDct[..], ShuffleTable(mdctBits), scale)
      ensures r.Pass? ==> output[..mdctSize] == OverlapOutputs(imdctWindow[..mdctSize], scratchMdct[..], old(imdctPrevious[..]), mdctSize / 2)
      ensures r.Pass? ==> imdctPrevious[..] == OverlapHistories(imdctWindow[..mdctSize], scratchMdct[..], mdctSize / 2)
      ensures r.Pass? ==> output[mdctSize..] == old(output[mdctSize..])
      ensures r.Pass? && ZeroUpTo(input, mdctSize) && old(ZeroUpTo(imdctPrevious, mdctSize)) ==>
        ZeroUpTo(output, mdctSize) && ZeroUpTo(imdctPrevious, mdctSize)
    {
      if input.Length < mdctSize || output.Length < mdctSize {
        return Fail("Input and output must be as long as the MDCT size.");
      }
      var size := mdctSize;
      var half := size / 2;
      assert size == 2 * half by {
        assert size == 2 * Pow2(mdctBits - 1);
      }
      var dctOut := scratchMdct;
      assert input != scratchDct && dctOut != scratchDct && input != dctOut;
      ghost var previous := imdctPrevious[..];
      Dct4(input, dctOut);
      assert dctOut[..] == dctOut[..size];
      var window, transformed := imdctWindow[..size], dctOut[..];
      ghost var temp := scratchDct[..];
      assert imdctPrevious[..] == previous;
      OverlapAdd(window, transformed, imdctPrevious, output, half);
      assert imdctWindow[..size] == window && dctOut[..] == transformed && scratchDct[..] == temp;
      assert input[..size] == old(input[..size]);
      if ZeroUpTo(input, size) && forall j :: 0 <= j < size ==> previous[j] == 0.0 {
        OverlapOfSilence(window, transformed, previous, half);
      }
      return Pass;
    }
  }

  /**
   * `new Mdct(mdctBits, window, scale)`: grows the shared tables to 2^mdctBits,
   * then fails if the window is shorter than the transform.
   */
  method NewMdct(mdctBits: nat, window: array<real>, scale: real, tables: MdctTables, trig: nat -> Trig)
    returns (r: Result<Mdct, string>)
    requires 1 <= mdctBits <= 30 && tables.Generated(trig) && TrigShaped(trig)
    modifies tables
    ensures tables.Generated(trig)
    ensures tables.tableBits == if mdctBits > old(tables.tableBits) then mdctBits else old(tables.tableBits)
    ensures tables.shuffleTables[..|old(tables.shuffleTables)|] == old(tables.shuffleTables)
    ensures mdctBits <= old(tables.tableBits) ==> unchanged(tables)
    ensures r.Failure? <==> window.Length < Pow2(mdctBits)
    ensures r.Success? ==> (
      && fresh(r.value) && r.value.Valid()
      && r.value.mdctBits == mdctBits && r.value.scale == scale && r.value.tables == tables
      && r.value.imdctWindow == window
      && fresh(r.value.mdctPrevious) && fresh(r.value.imdctPrevious)
      && fresh(r.value.scratchMdct) && fresh(r.value.scratchDct)
      && ZeroUpTo(r.value.imdctPrevious, r.value.mdctSize))
  {
    tables.SetTables(mdctBits, trig);
    ShlOne(mdctBits);
    if window.Length < Shl(1, mdctBits) {
      return Failure("Window must be as long as the MDCT size.");
    }
    var m := new Mdct(mdctBits, window, scale, tables);
    return Success(m);
  }

  /** The first loop of `Dct4`: each input pair from both ends, rotated by one table angle. */
  method PreRotate(input: array<real>, dctTemp: array<real>, sinTable: seq<real>, cosTable: seq<real>)
    requires dctTemp.Length % 2 == 0 && input.Length >= dctTemp.Length && input != dctTemp
    requires |sinTable| >= dctTemp.Length / 2 && |cosTable| >= dctTemp.Length / 2
    modifies dctTemp
    ensures dctTemp[..] == PreRotated(input[..dctTemp.Length], sinTable, cosTable)
    ensures ZeroUpTo(input, dctTemp.Length) ==> ZeroUpTo(dctTemp, dctTemp.Length)
  {
    var size := dctTemp.Length;
    var lastIndex := size - 1;
    var halfSize := size / 2;
    ghost var rotated := PreRotated(input[..size], sinTable, cosTable);
    var i := 0;
    while i < halfSize
      invariant 0 <= i <= halfSize
      invariant forall j :: 0 <= j < 2 * i ==> dctTemp[j] == rotated[j]
    {
      var i2 := i * 2;
      var a := input[i2];
      var b := input[lastIndex - i2];
      var sin := sinTable[i];
      var cos := cosTable[i];
      PreRotatedPair(input[..size], sinTable, cosTable, i, a, b, sin, cos);
      dctTemp[i2] := a * cos + b * sin;
      dctTemp[i2 + 1] := a * sin - b * cos;
      i := i + 1;
    }
    assert dctTemp[..] == rotated;
    if ZeroUpTo(input, size) {
      PreRotatedOfSilence(input[..size], sinTable, cosTable);
    }
  }

  /**
   * The first loop of `Dct4` as values: pair i of the result rotates input
   * sample 2i and its mirror size - 1 - 2i by the i-th angle.
   */
  function PreRotated(input: seq<real>, sinTable: seq<real>, cosTable: seq<real>): (r: seq<real>)
    requires |input| % 2 == 0 && |sinTable| >= |input| / 2 && |cosTable| >= |input| / 2
    ensures |r| == |input|
  {
    seq(|input|, j requires 0 <= j < |input| =>
      var i, mirror := j / 2, input[|input| - 1 - 2 * (j / 2)];
      if j % 2 == 0 then input[2 * i] * cosTable[i] + mirror * sinTable[i]
      else input[2 * i] * sinTable[i] - mirror * cosTable[i])
  }

  /** Pair i of `PreRotated`, in the form the loop computes it. */
  lemma PreRotatedPair(input: seq<real>, sinTable: seq<real>, cosTable: seq<real>, i: nat, a: real, b: real, sin: real, cos: real)
    requires |input| % 2 == 0 && |sinTable| >= |input| / 2 && |cosTable| >= |input| / 2 && i < |input| / 2
    requires a == input[2 * i] && b == input[|input| - 1 - 2 * i] && sin == sinTable[i] && cos == cosTable[i]
    ensures PreRotated(input, sinTable, cosTable)[2 * i] == a * cos + b * sin
    ensures PreRotated(input, sinTable, cosTable)[2 * i + 1] == a * sin - b * cos
  {
    assert (2 * i) / 2 == i && (2 * i + 1) / 2 == i && (2 * i + 1) % 2 == 1;
  }

  /** A silent input rotates to silence. */
  lemma PreRotatedOfSilence(input: seq<real>, sinTable: seq<real>, cosTable: seq<real>)
    requires |input| % 2 == 0 && |sinTable| >= |input| / 2 && |cosTable| >= |input| / 2
    requires forall j :: 0 <= j < |input| ==> input[j] == 0.0
    ensures forall j :: 0 <= j < |input| ==> PreRotated(input, sinTable, cosTable)[j] == 0.0
  {
    forall j | 0 <= j < |input|
      ensures PreRotated(input, sinTable, cosTable)[j] == 0.0
    {
      var i := j / 2;
      assert input[2 * i] == 0.0 && input[|input| - 1 - 2 * i] == 0.0;
    }
  }

  /** The pre-rotation of `Dct4` into its scratch buffer, then the butterfly stages over it. */
  method DctCoreRun(input: array<real>, dctTemp: array<real>, bits: nat, sinTables: seq<seq<real>>, cosTables: seq<seq<real>>)
    requires 1 <= bits <= 30 && dctTemp.Length == Pow2(bits) && input.Length >= dctTemp.Length && input != dctTemp
    requires AngleTables(bits + 1, sinTables, cosTables)
    modifies dctTemp
    ensures dctTemp[..] == DctCore(input[..dctTemp.Length], bits, sinTables, cosTables)
    ensures ZeroUpTo(input, dctTemp.Length) ==> ZeroUpTo(dctTemp, dctTemp.Length)
  {
    assert dctTemp.Length == 2 * Pow2(bits - 1);
    PreRotate(input, dctTemp, sinTables[bits], cosTables[bits]);
    ButterflyStages(dctTemp, bits, sinTables, cosTables);
    if ZeroUpTo(input, dctTemp.Length) {
      DctCoreOfSilence(input[..dctTemp.Length], bits, sinTables, cosTables);
    }
  }

  /** The stage loops of `Dct4`: stage s runs 2^s blocks of 2^(bits-2-s) butterflies, leaving `Butterflies`. */
  method ButterflyStages(dctTemp: array<real>, bits: nat, sinTables: seq<seq<real>>, cosTables: seq<seq<real>>)
    requires 1 <= bits <= 30 && dctTemp.Length == Pow2(bits) && AngleTables(bits, sinTables, cosTables)
    modifies dctTemp
    ensures dctTemp[..] == Butterflies(old(dctTemp[..]), bits, bits - 1, sinTables, cosTables)
  {
    ghost var s := dctTemp[..];
    var stageCount := bits - 1;
    var stage := 0;
    while stage < stageCount
      invariant 0 <= stage <= stageCount
      invariant dctTemp[..] == Butterflies(s, bits, stage, sinTables, cosTables)
    {
      NextStage(dctTemp, bits, stageCount, stage, sinTables, cosTables, s);
      stage := stage + 1;
    }
  }

  /** Stage `stage` of the stage loop: its 2^stage blocks, which take the buffer one stage further. */
  method NextStage(dctTemp: array<real>, bits: nat, stageCount: nat, stage: nat,
                         sinTables: seq<seq<real>>, cosTables: seq<seq<real>>, ghost s: seq<real>)
    requires 1 <= bits <= 30 && stageCount == bits - 1 && stage < stageCount
    requires |s| == dctTemp.Length == Pow2(bits) && AngleTables(bits, sinTables, cosTables)
    requires dctTemp[..] == Butterflies(s, bits, stage, sinTables, cosTables)
    modifies dctTemp
    ensures dctTemp[..] == Butterflies(s, bits, stage + 1, sinTables, cosTables)
  {
    var blockCount, blockSize, blockHalfSizeBits, blockHalfSize := StageShape(stageCount, stage);
    StageSizes(bits, stage, blockCount, blockSize, blockHalfSize);
    ButterfliesStep(s, bits, stage, blockHalfSizeBits, blockHalfSize, sinTables, cosTables);
    ButterflyStageRun(dctTemp, blockCount, blockSize, blockHalfSize, sinTables[blockHalfSizeBits], cosTables[blockHalfSizeBits]);
  }

  /**
   * The sizes of stage `stage` of `stageCount`: `1 << stage` blocks of `1 << (stageCount - stage)`
   * samples per half, with `1 << (stageCount - stage - 1)` butterflies each.
   */
  method StageShape(stageCount: nat, stage: nat) returns (blockCount: nat, blockSize: nat, blockHalfSizeBits: nat, blockHalfSize: nat)
    requires stage < stageCount <= 29
    ensures blockCount == Pow2(stage) && blockSize == Pow2(stageCount - stage)
    ensures blockHalfSizeBits == stageCount - stage - 1 && blockHalfSize == Pow2(blockHalfSizeBits)
  {
    ShlOne(stage);
    ShlOne(stageCount - stage);
    ShlOne(stageCount - stage - 1);
    blockCount := Shl(1, stage);
    var blockSizeBits := stageCount - stage;
    blockHalfSizeBits := blockSizeBits - 1;
    blockSize := Shl(1, blockSizeBits);
    blockHalfSize := Shl(1, blockHalfSizeBits);
  }

  /** The block loop of one stage: the buffer becomes `ButterflyStage` of what it held. */
  method ButterflyStageRun(dctTemp: array<real>, blockCount: nat, blockSize: nat, blockHalfSize: nat,
                           sinTable: seq<real>, cosTable: seq<real>)
    requires blockHalfSize >= 1 && blockSize == 2 * blockHalfSize && dctTemp.Length == blockCount * (2 * blockSize)
    requires WholeBlocks(dctTemp.Length, 4 * blockHalfSize) && |sinTable| >= blockHalfSize && |cosTable| >= blockHalfSize
    modifies dctTemp
    ensures dctTemp[..] == ButterflyStage(old(dctTemp[..]), blockHalfSize, sinTable, cosTable)
  {
    ghost var cur := dctTemp[..];
    ghost var base := 0;
    var block := 0;
    while block < blockCount
      invariant block <= blockCount && base == block * (2 * blockSize) && WholeBlocks(base, 4 * blockHalfSize)
      invariant StageDoneTo(cur, dctTemp[..], base, blockHalfSize, sinTable, cosTable)
      invariant forall j :: base <= j < dctTemp.Length ==> dctTemp[j] == cur[j]
    {
      MulLeft(block + 1, blockCount, 2 * blockSize);
      MulDist(block, 1, 2 * blockSize);
      ghost var before := dctTemp[..];
      BlockButterflies(dctTemp, block, base, blockSize, blockHalfSize, sinTable, cosTable, cur);
      StageDoneKept(cur, before, dctTemp[..], base, blockHalfSize, sinTable, cosTable);
      StageDoneGrows(cur, dctTemp[..], base, blockHalfSize, sinTable, cosTable);
      base := base + 2 * blockSize;
      block := block + 1;
    }
    StageDoneExact(cur, dctTemp[..], blockHalfSize, sinTable, cosTable);
  }

  /**
   * The butterflies of one block: its 2 * blockSize samples, which still hold `cur`, take the
   * outputs of the block's butterflies over `cur`, and no other sample changes.
   */
  method BlockButterflies(dctTemp: array<real>, block: nat, ghost base: nat, blockSize: nat, blockHalfSize: nat,
                          sinTable: seq<real>, cosTable: seq<real>, ghost cur: seq<real>)
    requires blockHalfSize >= 1 && blockSize == 2 * blockHalfSize
    requires |sinTable| >= blockHalfSize && |cosTable| >= blockHalfSize
    requires base == block * (2 * blockSize) && base + 2 * blockSize <= dctTemp.Length && |cur| == dctTemp.Length
    requires forall j :: base <= j < dctTemp.Length ==> dctTemp[j] == cur[j]
    modifies dctTemp
    ensures BlockDone(cur, dctTemp[..], base, blockHalfSize, sinTable, cosTable, blockHalfSize)
    ensures forall j :: 0 <= j < dctTemp.Length && !(base <= j < base + 2 * blockSize) ==> dctTemp[j] == old(dctTemp[j])
  {
    var i := 0;
    while i < blockHalfSize
      invariant i <= blockHalfSize
      invariant BlockDone(cur, dctTemp[..], base, blockHalfSize, sinTable, cosTable, i)
      invariant forall j :: base + 2 * i <= j < base + blockSize || base + blockSize + 2 * i <= j < base + 2 * blockSize ==>
        dctTemp[j] == cur[j]
      invariant forall j :: 0 <= j < dctTemp.Length && !(base <= j < base + 2 * blockSize) ==> dctTemp[j] == old(dctTemp[j])
    {
      var frontPos := (block * blockSize + i) * 2;
      FrontPosition(block, blockSize, i, base);
      var backPos := frontPos + blockSize;
      ghost var before := dctTemp[..];
      Butterfly(dctTemp, frontPos, backPos, sinTable[i], cosTable[i]);
      BlockDoneGrows(cur, before, dctTemp[..], base, blockHalfSize, sinTable, cosTable, i);
      i := i + 1;
    }
  }

  /** The last loop of `Dct4`: output[i] is the scaled entry the shuffle table names. */
  method ShuffleOut(dctTemp: array<real>, output: array<real>, shuffleTable: seq<int>, scale: real)
    requires dctTemp != output && output.Length >= dctTemp.Length
    requires IsPermutation(shuffleTable, dctTemp.Length)
    modifies output
    ensures output[..dctTemp.Length] == Shuffled(dctTemp[..], shuffleTable, scale)
    ensures output[dctTemp.Length..] == old(output[dctTemp.Length..])
    ensures ZeroUpTo(dctTemp, dctTemp.Length) ==> ZeroUpTo(output, dctTemp.Length)
  {
    var size := dctTemp.Length;
    ghost var shuffled := Shuffled(dctTemp[..], shuffleTable, scale);
    var i := 0;
    while i < size
      invariant 0 <= i <= size
      invariant forall j :: 0 <= j < i ==> output[j] == shuffled[j]
      invariant forall j :: i <= j < output.Length ==> output[j] == old(output[j])
    {
      var v := dctTemp[shuffleTable[i]];
      ShuffledAt(dctTemp[..], shuffleTable, scale, i, v);
      output[i] := v * scale;
      i := i + 1;
    }
    assert output[..size] == shuffled;
  }

  lemma ShuffledAt(temp: seq<real>, table: seq<int>, scale: real, i: nat, v: real)
    requires forall j :: 0 <= j < |table| ==> 0 <= table[j] < |temp|
    requires i < |table| && v == temp[table[i]]
    ensures Shuffled(temp, table, scale)[i] == v * scale
  {
  }

  /** The DCT-IV's last step as values: sample i is temp[table[i]] times the scale. */
  function Shuffled(temp: seq<real>, table: seq<int>, scale: real): (r: seq<real>)
    requires forall i :: 0 <= i < |table| ==> 0 <= table[i] < |temp|
    ensures |r| == |table|
  {
    seq(|table|, i requires 0 <= i < |table| => temp[table[i]] * scale)
  }

  /** One butterfly of `Dct4`: sums into the front pair, the rotated difference into the back pair. */
  method Butterfly(dctTemp: array<real>, frontPos: nat, backPos: nat, sin: real, cos: real)
    requires frontPos + 1 < backPos && backPos + 1 < dctTemp.Length
    modifies dctTemp
    ensures var x0, x1, y0, y1 := old(dctTemp[frontPos]), old(dctTemp[frontPos + 1]), old(dctTemp[backPos]), old(dctTemp[backPos + 1]);
      && dctTemp[frontPos] == ButterflyValue(x0, x1, y0, y1, sin, cos, 0)
      && dctTemp[frontPos + 1] == ButterflyValue(x0, x1, y0, y1, sin, cos, 1)
      && dctTemp[backPos] == ButterflyValue(x0, x1, y0, y1, sin, cos, 2)
      && dctTemp[backPos + 1] == ButterflyValue(x0, x1, y0, y1, sin, cos, 3)
    ensures forall j :: 0 <= j < dctTemp.Length && j != frontPos && j != frontPos + 1 && j != backPos && j != backPos + 1 ==> dctTemp[j] == old(dctTemp[j])
    ensures old(ZeroUpTo(dctTemp, dctTemp.Length)) ==> ZeroUpTo(dctTemp, dctTemp.Length)
  {
    var a := dctTemp[frontPos] - dctTemp[backPos];
    var b := dctTemp[frontPos + 1] - dctTemp[backPos + 1];
    dctTemp[frontPos] := dctTemp[frontPos] + dctTemp[backPos];
    dctTemp[frontPos + 1] := dctTemp[frontPos + 1] + dctTemp[backPos + 1];
    dctTemp[backPos] := a * cos + b * sin;
    dctTemp[backPos + 1] := a * sin - b * cos;
  }
}
