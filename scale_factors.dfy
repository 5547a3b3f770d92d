/**
 * Reading a channel's scale factors. A two-bit mode selects one of four codings (a fixed-width
 * offset coding, Huffman-coded deltas, Huffman-coded distances to a baseline, or deltas added
 * to a baseline); the first channel of a block and the second select them differently, and the
 * baseline is either the channel's factors of the previous frame or the first channel's. Every
 * coded factor must end up between 0 and 31, and what was read becomes the next baseline.
 *
 * The factors live in an Int8Array: every store wraps the stored number to 8 bits.
 */
module ScaleFactorReading {
  import opened Wrappers
  import opened JsInt
  import opened BitStream
  import opened BitReading
  import opened Huffman
  import opened UnpackHuffman
  import opened RuntimeTables
  import opened DecodeState
  import BA = BitAllocation

  /** The widest fixed-width scale factor; at that width no base value is coded. */
  const MAX_CLC_BITS: nat := 5
  /** The highest valid scale factor, also the mask of a distance coding. */
  const MAX_SCALE_FACTOR: int := 31
  /** The width of the plain factors that follow the units a baseline covers. */
  const RAW_BITS: nat := 5
  const OUT_OF_RANGE := "Scale factor values are out of range."

  /** The scale factors a coding leaves, all 31 of them, and the position after its fields. */
  datatype Factors = Factors(Values: seq<int>, End: nat)

  // ---------------------------------------------------------------------------------------------
  // What a store loop writes

  /** A channel's scale factors after `fill(0)`. */
  function Zeros(): (z: seq<int>)
    ensures |z| == SCALE_FACTOR_SLOTS && AllZero(z)
  {
    seq(SCALE_FACTOR_SLOTS, _ => 0)
  }

  /**
   * s with g written from at on. The second clause is stated per element of g, so that facts
   * about s alone do not bring in the elements of g.
   */
  function Splice(s: seq<int>, at: nat, g: seq<int>): (r: seq<int>)
    requires at + |g| <= |s|
    ensures KeepsFrom(s, r, at + |g|)
    ensures forall k :: 0 <= k < |s| && !(at <= k < at + |g|) ==> r[k] == s[k]
    ensures forall j :: 0 <= j < |g| ==> r[at + j] == g[j]
  {
    s[..at] + g + s[at + |g|..]
  }

  /** r keeps the factors of sf from unit `from` on. */
  ghost predicate KeepsFrom(sf: seq<int>, r: seq<int>, from: nat)
  {
    |r| == |sf| && forall k :: from <= k < |sf| ==> r[k] == sf[k]
  }

  /**
   * What a loop that stores one field per unit keeps of a field: the field plus a base value,
   * or the unit's baseline factor moved by the field, modulo 32.
   */
  datatype Store = Offset(base: int) | Distance(baseline: seq<int>)

  /** The store covers the units below n. */
  predicate StoreFits(st: Store, n: nat)
  {
    st.Distance? ==> n <= |st.baseline|
  }

  /** `x + y` stored into an Int8Array. */
  function Wrapped(x: int, y: int): int8
  {
    ToInt8(x + y)
  }

  /** `(x + y) & mask` stored into an Int8Array. */
  function MaskedSum(x: int, y: int, mask: int): int8
  {
    ToInt8(And(x + y, mask))
  }

  /** The number stored at unit i for field value v. */
  function Stored(st: Store, i: nat, v: int): int
    requires StoreFits(st, i + 1)
  {
    match st
    case Offset(base) => Wrapped(v, base)
    case Distance(baseline) => MaskedSum(baseline[i], v, MAX_SCALE_FACTOR)
  }

  /** The numbers stored from unit `from` on for the field values `values`. */
  function StoredRun(st: Store, from: nat, values: seq<int>): (r: seq<int>)
    requires StoreFits(st, from + |values|)
    ensures |r| == |values|
    decreases |values|
  {
    if |values| == 0 then []
    else StoredRun(st, from, values[..|values| - 1]) + [Stored(st, from + |values| - 1, values[|values| - 1])]
  }

  /** Unit from + k of a store run holds field k stored. */
  lemma {:induction false} StoredAt(st: Store, from: nat, values: seq<int>, k: nat)
    requires StoreFits(st, from + |values|) && k < |values|
    ensures StoredRun(st, from, values)[k] == Stored(st, from + k, values[k])
    decreases |values|
  {
    if k < |values| - 1 {
      StoredAt(st, from, values[..|values| - 1], k);
    }
  }

  /**
   * What a second pass adds to each of the first units: the base value less the unit's weight,
   * or the base value and the unit's baseline factor.
   */
  datatype Adjustment = LessWeights(base: int, weights: seq<int>) | PlusBaseline(base: int, baseline: seq<int>)

  predicate AdjustmentFits(a: Adjustment, n: nat)
  {
    match a
    case LessWeights(_, weights) => n <= |weights|
    case PlusBaseline(_, baseline) => n <= |baseline|
  }

  function Adjusted(a: Adjustment, i: nat, x: int): int
    requires AdjustmentFits(a, i + 1)
  {
    match a
    case LessWeights(base, weights) => Wrapped(x, base - weights[i])
    case PlusBaseline(base, baseline) => Wrapped(x, base + baseline[i])
  }

  function AdjustedRun(a: Adjustment, values: seq<int>): (r: seq<int>)
    requires AdjustmentFits(a, |values|)
    ensures |r| == |values|
    decreases |values|
  {
    if |values| == 0 then []
    else AdjustedRun(a, values[..|values| - 1]) + [Adjusted(a, |values| - 1, values[|values| - 1])]
  }

  /** The running values of a delta coding: each is the one before plus its delta, masked. */
  function DeltaChain(first: int, deltas: seq<int>, mask: int): (r: seq<int>)
    ensures |r| == |deltas| + 1 && r[0] == first
    decreases |deltas|
  {
    if |deltas| == 0 then [first]
    else
      var before := DeltaChain(first, deltas[..|deltas| - 1], mask);
      before + [MaskedSum(before[|before| - 1], deltas[|deltas| - 1], mask)]
  }

  /** Units 1 to n - 1 of a delta coding carry a coded delta; unit 0 is read plainly. */
  function DeltaCount(n: int): nat
  {
    if n > 0 then n - 1 else 0
  }

  /** The units a delta coding over n units writes: unit 0 is written even when n is 0. */
  function DeltaReach(n: nat): nat
  {
    if n == 0 then 1 else n
  }

  /**
   * The units of a delta coding over n units: unit 0 is first, the running values follow, and
   * the first n units are adjusted.
   */
  function DeltaRuns(sf: seq<int>, first: int, deltas: seq<int>, mask: int, a: Adjustment, n: nat): (r: seq<int>)
    requires |deltas| < |sf| && n <= |sf| && AdjustmentFits(a, n)
    ensures KeepsFrom(sf, r, Max(|deltas| + 1, n))
  {
    var s0 := sf[0 := first];
    var s1 := Splice(s0, 0, DeltaChain(first, deltas, mask));
    var s2 := Splice(s1, 0, AdjustedRun(a, s1[..n]));
    SplicesKeep(sf, s0, s1, s2, |deltas| + 1, n);
    s2
  }

  // ---------------------------------------------------------------------------------------------
  // The loops of the four codings, on the bit stream from `at` on, over the factors sf

  /** The store loop of the fixed-width coding: one field of bitLength bits per unit, plus the base value. */
  function ClcRun(bits: seq<bool>, at: nat, eu: nat, sf: seq<int>, bitLength: nat, base: int): (f: Factors)
    requires eu <= UNIT_SLOTS && |sf| == SCALE_FACTOR_SLOTS
    ensures KeepsFrom(sf, f.Values, eu)
    ensures bitLength == RAW_BITS && base == 0 ==> InRange(f.Values, eu)
  {
    var run := Run(Unsigned(bitLength), bits, at, eu);
    var r := Splice(sf, 0, StoredRun(Offset(base), 0, run.Values));
    if bitLength == RAW_BITS && base == 0 then
      RawFields(bits, at, eu);
      PlainStored(0, run.Values);
      SpliceInRange(sf, run.Values);
      Factors(r, run.End)
    else Factors(r, run.End)
  }

  /** The two loops of a delta coding over the first n units: running values, then the adjustment. */
  function DeltaCoding(bits: seq<bool>, at: nat, sf: seq<int>, first: int, book: HuffmanCodebook, a: Adjustment, n: nat)
    : (f: Factors)
    requires ValidCodebook(book) && n <= UNIT_SLOTS && |sf| == SCALE_FACTOR_SLOTS && AdjustmentFits(a, n)
    ensures KeepsFrom(sf, f.Values, DeltaReach(n))
  {
    var deltas := Run(Coded(book, false), bits, at, DeltaCount(n));
    Factors(DeltaRuns(sf, first, deltas.Values, book.ValueMax - 1, a, n), deltas.End)
  }

  /** The distance loop over the first n units: each the baseline's factor plus a coded distance, modulo 32. */
  function DistanceRun(bits: seq<bool>, at: nat, sf: seq<int>, book: HuffmanCodebook, baseline: seq<int>, n: nat)
    : (f: Factors)
    requires ValidCodebook(book) && n <= UNIT_SLOTS && |sf| == SCALE_FACTOR_SLOTS && |baseline| == SCALE_FACTOR_SLOTS
    ensures KeepsFrom(sf, f.Values, n) && InRange(f.Values, n)
  {
    var distances := Run(Coded(book, true), bits, at, n);
    var g := StoredRun(Distance(baseline), 0, distances.Values);
    DistancesInRange(baseline, distances.Values);
    SpliceInRange(sf, g);
    Factors(Splice(sf, 0, g), distances.End)
  }

  /** The loop over the units from `from` to eu the baseline does not cover: plain 5-bit values. */
  function PlainRest(bits: seq<bool>, at: nat, sf: seq<int>, from: nat, eu: nat): (f: Factors)
    requires from <= eu <= UNIT_SLOTS && |sf| == SCALE_FACTOR_SLOTS
    ensures KeepsFrom(sf, f.Values, eu)
    ensures InRange(sf, from) ==> InRange(f.Values, eu)
  {
    var rest := Run(Unsigned(RAW_BITS), bits, at, eu - from);
    RawFields(bits, at, eu - from);
    PlainStored(from, rest.Values);
    SpliceAfterInRange(sf, from, rest.Values);
    Factors(Splice(sf, from, StoredRun(Offset(0), from, rest.Values)), rest.End)
  }

  // ---------------------------------------------------------------------------------------------
  // The four codings, on the bit stream from pos on, over the factors sf

  /** What the fixed-width coding's header gives its loop: the field width, the base value and where the fields begin. */
  datatype ClcHead = ClcHead(Width: nat, Base: int, Start: nat)

  /** What a delta coding's header gives its loops: the codebook, unit 0's value, the adjustment and where the deltas begin. */
  datatype DeltaHead = DeltaHead(Book: HuffmanCodebook, First: int, Adjust: Adjustment, Start: nat)

  /** The fixed-width header: a 2-bit width code, then a 5-bit base value unless the width is the widest. */
  function ClcHeader(bits: seq<bool>, pos: nat): ClcHead
  {
    var width := Read(Unsigned(2), bits, pos);
    PeekBits(bits, pos, 2);
    var bitLength := width.Value + 2;
    if bitLength < MAX_CLC_BITS then
      var base := Read(Unsigned(MAX_CLC_BITS), bits, width.Next);
      ClcHead(bitLength, base.Value, base.Next)
    else ClcHead(bitLength, 0, width.Next)
  }

  /**
   * `readClcOffset`: a width code, a base value below the widest width, then one field per unit.
   * At the widest width the fields are plain 5-bit values, so the range check cannot fail.
   */
  function ClcOffset(bits: seq<bool>, pos: nat, eu: nat, sf: seq<int>): (f: Factors)
    requires eu <= UNIT_SLOTS && |sf| == SCALE_FACTOR_SLOTS
    ensures KeepsFrom(sf, f.Values, eu)
    ensures PeekValue(bits, pos, 2) == 3 ==> InRange(f.Values, eu)
  {
    var h := ClcHeader(bits, pos);
    ClcRun(bits, h.Start, eu, sf, h.Width, h.Base)
  }

  /** The header of `readVlcDeltaOffset`: a 3-bit weight row, a 5-bit base value, a 2-bit width and unit 0 at that width. */
  function VlcDeltaHeader(bits: seq<bool>, pos: nat, t: CodecTables): (h: DeltaHead)
    requires ScaleFactorTables(t)
    ensures ValidCodebook(h.Book) && AdjustmentFits(h.Adjust, UNIT_SLOTS)
  {
    var row := Read(Unsigned(3), bits, pos);
    var base := Read(Unsigned(5), bits, row.Next);
    var width := Read(Unsigned(2), bits, base.Next);
    PeekBits(bits, pos, 3);
    ValueBound(bits, pos, 3);
    PeekBits(bits, base.Next, 2);
    var first := Read(Unsigned(width.Value + 3), bits, width.Next);
    DeltaHead(t.HuffmanScaleFactorsUnsigned[width.Value + 3], ToInt8(first.Value),
      LessWeights(base.Value, t.ScaleFactorWeights[row.Value]), first.Next)
  }

  /**
   * `readVlcDeltaOffset`: a weight row, a base value and a width; unit 0 read plainly at that
   * width and every later unit as a Huffman-coded delta to the one before; then the base value
   * added and the unit's weight taken away.
   */
  function VlcDeltaOffset(bits: seq<bool>, pos: nat, eu: nat, sf: seq<int>, t: CodecTables): (f: Factors)
    requires ScaleFactorTables(t) && eu <= UNIT_SLOTS && |sf| == SCALE_FACTOR_SLOTS
    ensures KeepsFrom(sf, f.Values, DeltaReach(eu))
  {
    var h := VlcDeltaHeader(bits, pos, t);
    DeltaCoding(bits, h.Start, sf, h.First, h.Book, h.Adjust, eu)
  }

  /** The header of `readVlcDistanceToBaseline`: a 2-bit width choosing a signed codebook. */
  function DistanceBook(bits: seq<bool>, pos: nat, t: CodecTables): (book: HuffmanCodebook)
    requires ScaleFactorTables(t)
    ensures ValidCodebook(book)
  {
    PeekBits(bits, pos, 2);
    t.HuffmanScaleFactorsSigned[Read(Unsigned(2), bits, pos).Value + 2]
  }

  /**
   * `readVlcDistanceToBaseline`: a width; the units the baseline covers as Huffman-coded signed
   * distances to it, modulo 32; the remaining units as plain 5-bit values. Either way every
   * unit it codes is in range, so this coding cannot fail the range check.
   */
  function VlcDistanceToBaseline(bits: seq<bool>, pos: nat, eu: nat, sf: seq<int>, baseline: seq<int>,
                                 baselineLength: nat, t: CodecTables): (f: Factors)
    requires ScaleFactorTables(t) && eu <= UNIT_SLOTS && |sf| == SCALE_FACTOR_SLOTS && |baseline| == SCALE_FACTOR_SLOTS
    ensures KeepsFrom(sf, f.Values, eu)
    ensures InRange(f.Values, eu)
  {
    var unitCount: nat := Min(eu, baselineLength);
    var distances := DistanceRun(bits, Read(Unsigned(2), bits, pos).Next, sf, DistanceBook(bits, pos, t), baseline, unitCount);
    var r := PlainRest(bits, distances.End, distances.Values, unitCount, eu);
    KeepsChain(sf, distances.Values, r.Values, unitCount, eu);
    r
  }

  /** An offset-binary field of n bits and the position after it. */
  function OffsetRead(bits: seq<bool>, pos: nat, n: nat, bias: int): Decoded
  {
    Decoded(OffsetBinary(bits, pos, n, bias), pos + n)
  }

  /** The header of `readVlcDeltaOffsetWithBaseline`: a 5-bit offset-binary base value, a 2-bit width and unit 0 at that width. */
  function BaselineDeltaHeader(bits: seq<bool>, pos: nat, baseline: seq<int>, t: CodecTables): (h: DeltaHead)
    requires ScaleFactorTables(t) && |baseline| == SCALE_FACTOR_SLOTS
    ensures ValidCodebook(h.Book) && AdjustmentFits(h.Adjust, UNIT_SLOTS)
  {
    var base := OffsetRead(bits, pos, 5, OFFSET_NEGATIVE);
    var width := Read(Unsigned(2), bits, base.Next);
    PeekBits(bits, base.Next, 2);
    var first := Read(Unsigned(width.Value + 1), bits, width.Next);
    DeltaHead(t.HuffmanScaleFactorsUnsigned[width.Value + 1], ToInt8(first.Value), PlusBaseline(base.Value, baseline), first.Next)
  }

  /**
   * `readVlcDeltaOffsetWithBaseline`: an offset-binary base value and a width; the units the
   * baseline covers as a delta coding plus the base value and the baseline; the remaining units
   * as plain 5-bit values.
   */
  function VlcDeltaOffsetWithBaseline(bits: seq<bool>, pos: nat, eu: nat, sf: seq<int>, baseline: seq<int>,
                                      baselineLength: nat, t: CodecTables): (f: Factors)
    requires ScaleFactorTables(t) && eu <= UNIT_SLOTS && |sf| == SCALE_FACTOR_SLOTS && |baseline| == SCALE_FACTOR_SLOTS
    ensures KeepsFrom(sf, f.Values, DeltaReach(eu))
  {
    var h := BaselineDeltaHeader(bits, pos, baseline, t);
    var unitCount: nat := Min(eu, baselineLength);
    var deltas := DeltaCoding(bits, h.Start, sf, h.First, h.Book, h.Adjust, unitCount);
    var r := PlainRest(bits, deltas.End, deltas.Values, unitCount, eu);
    KeepsChain(sf, deltas.Values, r.Values, DeltaReach(unitCount), eu);
    r
  }

  // ---------------------------------------------------------------------------------------------
  // Selecting a coding and checking the result

  /** The block and channel facts the selection depends on. */
  datatype Context = Context(
    ChannelIndex: nat,
    FirstInSuperframe: bool,
    ExtensionUnit: nat,
    Previous: seq<int>,
    PreviousUnits: nat,
    Primary: seq<int>)

  predicate ContextShaped(c: Context)
  {
    c.ExtensionUnit <= UNIT_SLOTS && |c.Previous| == SCALE_FACTOR_SLOTS && |c.Primary| == SCALE_FACTOR_SLOTS
  }

  /** Whether a mode codes against the previous frame's factors, which a superframe's first frame lacks. */
  predicate NeedsPrevious(channelIndex: nat, mode: int)
  {
    if channelIndex == 0 then mode == 2 || mode == 3 else mode == 3
  }

  /** The coding a mode selects for a channel, from pos on (just past the mode), over the factors sf. */
  function Selected(bits: seq<bool>, pos: nat, mode: int, c: Context, sf: seq<int>, t: CodecTables)
    : (r: Result<Factors, DecodeError>)
    requires ScaleFactorTables(t) && ContextShaped(c) && |sf| == SCALE_FACTOR_SLOTS
    ensures r.Success? ==> KeepsFrom(sf, r.value.Values, DeltaReach(c.ExtensionUnit))
  {
    var eu := c.ExtensionUnit;
    if NeedsPrevious(c.ChannelIndex, mode) && c.FirstInSuperframe then Failure(InvalidData(""))
    else if mode == 0 then Success(VlcDeltaOffset(bits, pos, eu, sf, t))
    else if c.ChannelIndex == 0 then
      if mode == 1 then Success(ClcOffset(bits, pos, eu, sf))
      else if mode == 2 then Success(VlcDistanceToBaseline(bits, pos, eu, sf, c.Previous, c.PreviousUnits, t))
      else Success(VlcDeltaOffsetWithBaseline(bits, pos, eu, sf, c.Previous, c.PreviousUnits, t))
    else
      if mode == 1 then Success(VlcDistanceToBaseline(bits, pos, eu, sf, c.Primary, eu, t))
      else if mode == 2 then Success(VlcDeltaOffsetWithBaseline(bits, pos, eu, sf, c.Primary, eu, t))
      else Success(VlcDistanceToBaseline(bits, pos, eu, sf, c.Previous, c.PreviousUnits, t))
  }

  /** The factors of the units below eu lie between 0 and 31. */
  predicate InRange(sf: seq<int>, eu: nat)
    requires eu <= |sf|
  {
    forall i :: 0 <= i < eu ==> 0 <= sf[i] <= MAX_SCALE_FACTOR
  }

  /**
   * What a read leaves in the channel's factors and where it leaves the reader, whether it
   * succeeds or not: zeros just past the mode when the mode is refused, the coding's result
   * otherwise.
   */
  function Attempt(bits: seq<bool>, pos: nat, c: Context, t: CodecTables): (f: Factors)
    requires ScaleFactorTables(t) && ContextShaped(c)
    ensures |f.Values| == SCALE_FACTOR_SLOTS
  {
    var mode := Read(Unsigned(2), bits, pos);
    var selected := Selected(bits, mode.Next, mode.Value, c, Zeros(), t);
    if selected.Success? then selected.value else Factors(Zeros(), mode.Next)
  }

  /** `ScaleFactors.read`: the mode, the coding it selects over zeroed factors, and the range check. */
  function ScaleFactorsRead(bits: seq<bool>, pos: nat, c: Context, t: CodecTables): (r: Result<Factors, DecodeError>)
    requires ScaleFactorTables(t) && ContextShaped(c)
    ensures r.Success? ==> r.value == Attempt(bits, pos, c, t) && InRange(r.value.Values, c.ExtensionUnit)
  {
    var mode := Read(Unsigned(2), bits, pos);
    var selected := Selected(bits, mode.Next, mode.Value, c, Zeros(), t);
    if selected.Failure? then selected
    else if InRange(selected.value.Values, c.ExtensionUnit) then selected
    else Failure(InvalidData(OUT_OF_RANGE))
  }

  // ---------------------------------------------------------------------------------------------
  // Properties

  /** The read fails without a message exactly when the mode needs a previous frame there is none of. */
  lemma RefusedMode(bits: seq<bool>, pos: nat, c: Context, t: CodecTables)
    requires ScaleFactorTables(t) && ContextShaped(c)
    ensures ScaleFactorsRead(bits, pos, c, t) == Failure(InvalidData(""))
      <==> NeedsPrevious(c.ChannelIndex, PeekValue(bits, pos, 2)) && c.FirstInSuperframe
  {
    assert OUT_OF_RANGE != "" by {
      assert OUT_OF_RANGE[0] == 'S';
    }
  }

  /** Any other failure is the range check, with its message. */
  lemma OutOfRange(bits: seq<bool>, pos: nat, c: Context, t: CodecTables)
    requires ScaleFactorTables(t) && ContextShaped(c)
    requires !(NeedsPrevious(c.ChannelIndex, PeekValue(bits, pos, 2)) && c.FirstInSuperframe)
    ensures ScaleFactorsRead(bits, pos, c, t).Failure?
      <==> !InRange(Attempt(bits, pos, c, t).Values, c.ExtensionUnit)
    ensures ScaleFactorsRead(bits, pos, c, t).Failure? ==> ScaleFactorsRead(bits, pos, c, t).error == InvalidData(OUT_OF_RANGE)
  {
  }

  /** A masked sum lies between 0 and a mask that fits in 8 bits. */
  lemma MaskedSumBounded(x: int, y: int, mask: int)
    requires 0 <= mask <= 0x7F
    ensures 0 <= MaskedSum(x, y, mask) <= mask
  {
    MaskedBounded(x + y, mask);
  }

  lemma MaskedBounded(z: int, mask: int)
    requires 0 <= mask <= 0x7F
    ensures 0 <= ToInt8(And(z, mask)) <= mask
  {
    AndBelow(z, mask);
  }

  /** Each masked running value of a delta coding after the first lies between 0 and the mask. */
  lemma {:induction false} DeltaChainBounded(first: int, deltas: seq<int>, mask: int, k: nat)
    requires 0 <= mask <= 0x7F && 1 <= k <= |deltas|
    ensures 0 <= DeltaChain(first, deltas, mask)[k] <= mask
    decreases |deltas|
  {
    var before := DeltaChain(first, deltas[..|deltas| - 1], mask);
    if k < |deltas| {
      DeltaChainBounded(first, deltas[..|deltas| - 1], mask, k);
    } else {
      MaskedSumBounded(before[|before| - 1], deltas[|deltas| - 1], mask);
    }
  }

  /** Every field of a run of unsigned fields of at most 17 bits lies below 2^w. */
  lemma {:induction false} PlainField(bits: seq<bool>, pos: nat, w: nat, n: nat, k: nat)
    requires w <= 17 && k < n
    ensures 0 <= Run(Unsigned(w), bits, pos, n).Values[k] < Pow2(w)
  {
    RunStep(Unsigned(w), bits, pos, n - 1);
    if k < n - 1 {
      PlainField(bits, pos, w, n - 1, k);
    } else {
      UnsignedField(bits, Run(Unsigned(w), bits, pos, n - 1).End, w);
    }
  }

  /** Plain 5-bit fields lie between 0 and 31. */
  lemma RawFields(bits: seq<bool>, pos: nat, n: nat)
    ensures InRange(Run(Unsigned(RAW_BITS), bits, pos, n).Values, n)
  {
    assert Pow2(RAW_BITS) == 32;
    forall j | 0 <= j < n
      ensures 0 <= Run(Unsigned(RAW_BITS), bits, pos, n).Values[j] <= MAX_SCALE_FACTOR
    {
      PlainField(bits, pos, RAW_BITS, n, j);
    }
  }

  /** Distances are taken modulo 32, so they never leave the valid range. */
  lemma DistanceInRange(baseline: seq<int>, i: nat, v: int)
    requires i < |baseline|
    ensures 0 <= Stored(Distance(baseline), i, v) <= MAX_SCALE_FACTOR
  {
    MaskedSumBounded(baseline[i], v, MAX_SCALE_FACTOR);
  }

  /** So every stored distance is in range. */
  lemma DistancesInRange(baseline: seq<int>, v: seq<int>)
    requires |v| <= |baseline|
    ensures InRange(StoredRun(Distance(baseline), 0, v), |v|)
  {
    forall j | 0 <= j < |v|
      ensures 0 <= StoredRun(Distance(baseline), 0, v)[j] <= MAX_SCALE_FACTOR
    {
      StoredAt(Distance(baseline), 0, v, j);
      DistanceInRange(baseline, j, v[j]);
    }
  }

  /** Fields in range stored with no offset stay as they are. */
  lemma PlainStored(from: nat, v: seq<int>)
    requires InRange(v, |v|)
    ensures StoredRun(Offset(0), from, v) == v
  {
    forall k | 0 <= k < |v|
      ensures StoredRun(Offset(0), from, v)[k] == v[k]
    {
      StoredAt(Offset(0), from, v, k);
    }
  }

  /** A chain of two splices over sf with unit 0 changed keeps what neither reaches. */
  lemma SplicesKeep(sf: seq<int>, s0: seq<int>, s1: seq<int>, s2: seq<int>, a: nat, b: nat)
    requires KeepsFrom(sf, s0, 1) && KeepsFrom(s0, s1, a) && KeepsFrom(s1, s2, b) && 1 <= a
    ensures KeepsFrom(sf, s2, Max(a, b))
  {
  }

  /** Keeping from x and then from y keeps from the larger. */
  lemma KeepsChain(sf: seq<int>, s1: seq<int>, s2: seq<int>, x: nat, y: nat)
    requires KeepsFrom(sf, s1, x) && KeepsFrom(s1, s2, y)
    ensures KeepsFrom(sf, s2, Max(x, y))
  {
  }

  /** A splice of values in range from unit 0 on leaves the units it covers in range. */
  lemma SpliceInRange(sf: seq<int>, g: seq<int>)
    requires |g| <= |sf| && InRange(g, |g|)
    ensures InRange(Splice(sf, 0, g), |g|)
  {
  }

  /** A splice of values in range right after units in range leaves all of them in range. */
  lemma SpliceAfterInRange(sf: seq<int>, from: nat, g: seq<int>)
    requires from + |g| <= |sf| && InRange(g, |g|)
    ensures InRange(sf, from) ==> InRange(Splice(sf, from, g), from + |g|)
  {
    var r := Splice(sf, from, g);
    if InRange(sf, from) {
      forall k | 0 <= k < from + |g|
        ensures 0 <= r[k] <= MAX_SCALE_FACTOR
      {
        if k >= from {
          assert r[from + (k - from)] == g[k - from];
        }
      }
    }
  }

  /** So a read that succeeds leaves zeros from max(eu, 1) on. */
  lemma ReadKeepsZeros(bits: seq<bool>, pos: nat, c: Context, t: CodecTables, k: nat)
    requires ScaleFactorTables(t) && ContextShaped(c) && ScaleFactorsRead(bits, pos, c, t).Success?
    requires 1 <= k < SCALE_FACTOR_SLOTS && c.ExtensionUnit <= k
    ensures ScaleFactorsRead(bits, pos, c, t).value.Values[k] == 0
  {
  }

  // ---------------------------------------------------------------------------------------------
  // The reading loops

  /** One pass of a store loop: the next field stored at the unit after those already stored. */
  lemma StoreStep(st: Store, sf: seq<int>, s: seq<int>, from: nat, before: seq<int>, after: seq<int>, v: int)
    requires from + |before| < |sf| && StoreFits(st, from + |before| + 1) && after == before + [v]
    requires Placed(sf, s, from, StoredRun(st, from, before))
    ensures Placed(sf, s[from + |before| := Stored(st, from + |before|, v)], from, StoredRun(st, from, after))
  {
    assert StoredRun(st, from, after) == StoredRun(st, from, before) + [Stored(st, from + |before|, v)];
    PlaceNext(sf, s, from, StoredRun(st, from, before), Stored(st, from + |before|, v));
  }

  /** What is placed is the splice. */
  lemma PlacedSplice(base: seq<int>, s: seq<int>, at: nat, g: seq<int>)
    requires Placed(base, s, at, g)
    ensures s == Splice(base, at, g)
  {
    Spliced(base, s, at, g);
  }

  /** One pass of a store loop: the next field read and stored at the unit after those already stored. */
  method StoreNext(reader: BitReader, c: FieldCode, st: Store, sf: seq<int>, s: seq<int>, from: nat, i: nat,
                   ghost p0: nat, ghost done: seq<int>) returns (s': seq<int>, ghost done': seq<int>)
    requires reader.Valid() && Readable(c) && i == |done| && from + i < |sf| && StoreFits(st, from + i + 1)
    requires Run(c, reader.bits, p0, |done|) == Fields(done, reader.position)
    requires Placed(sf, s, from, StoredRun(st, from, done))
    modifies reader
    ensures reader.Valid() && unchanged(reader`buffer, reader`bits) && |done'| == |done| + 1
    ensures Run(c, reader.bits, p0, |done'|) == Fields(done', reader.position)
    ensures Placed(sf, s', from, StoredRun(st, from, done'))
  {
    RunStep(c, reader.bits, p0, |done|);
    var v := ReadField(reader, c);
    StoreStep(st, sf, s, from, done, done + [v], v);
    s' := s[from + i := Stored(st, from + i, v)];
    done' := done + [v];
  }

  /** A store loop: n fields, field i stored at unit from + i. */
  method ReadStoredRun(reader: BitReader, c: FieldCode, st: Store, sf: seq<int>, from: nat, n: nat) returns (s: seq<int>)
    requires reader.Valid() && Readable(c) && from + n <= |sf| && StoreFits(st, from + n)
    modifies reader
    ensures reader.Valid() && unchanged(reader`buffer, reader`bits)
    ensures var run := Run(c, reader.bits, old(reader.position), n);
      s == Splice(sf, from, StoredRun(st, from, run.Values)) && reader.position == run.End
  {
    ghost var p0 := reader.position;
    ghost var done: seq<int> := [];
    s := sf;
    var i: nat := 0;
    while i < n
      invariant reader.Valid() && unchanged(reader`buffer, reader`bits) && i <= n && |done| == i
      invariant Run(c, reader.bits, p0, i) == Fields(done, reader.position)
      invariant Placed(sf, s, from, StoredRun(st, from, done))
    {
      s, done := StoreNext(reader, c, st, sf, s, from, i, p0, done);
      i := i + 1;
    }
    PlacedSplice(sf, s, from, StoredRun(st, from, done));
  }

  /** One pass of a delta loop: the unit after the first |done| + 1 gets the next running value. */
  lemma DeltaStep(s0: seq<int>, s: seq<int>, done: seq<int>, mask: int, delta: int, x: int)
    requires 0 < |s0| && |done| + 1 < |s0|
    requires Placed(s0, s, 0, DeltaChain(s0[0], done, mask))
    requires x == MaskedSum(s[|done|], delta, mask)
    ensures Placed(s0, s[|done| + 1 := x], 0, DeltaChain(s0[0], done + [delta], mask))
  {
    var after := done + [delta];
    assert after[..|after| - 1] == done;
    var chain := DeltaChain(s0[0], done, mask);
    assert s[|done|] == chain[|chain| - 1];
    PlaceNext(s0, s, 0, chain, x);
  }

  /** One pass of a delta loop: the next delta read and unit i set to the one before plus that delta, masked. */
  method DeltaNext(reader: BitReader, book: HuffmanCodebook, s0: seq<int>, s: seq<int>, i: nat, mask: int,
                   ghost p0: nat, ghost done: seq<int>) returns (s': seq<int>, ghost done': seq<int>)
    requires reader.Valid() && ValidCodebook(book) && i == |done| + 1 && i < |s0|
    requires Run(Coded(book, false), reader.bits, p0, |done|) == Fields(done, reader.position)
    requires Placed(s0, s, 0, DeltaChain(s0[0], done, mask))
    modifies reader
    ensures reader.Valid() && unchanged(reader`buffer, reader`bits) && |done'| == |done| + 1
    ensures Run(Coded(book, false), reader.bits, p0, |done'|) == Fields(done', reader.position)
    ensures Placed(s0, s', 0, DeltaChain(s0[0], done', mask))
  {
    RunStep(Coded(book, false), reader.bits, p0, |done|);
    var delta := ReadHuffmanValue(book, reader, false);
    var x := MaskedSum(s[i - 1], delta, mask);
    DeltaStep(s0, s, done, mask, delta, x);
    s' := s[i := x];
    done' := done + [delta];
  }

  /** A delta loop: units 1 to n - 1, each the one before plus a Huffman-coded delta, masked. */
  method ReadDeltas(reader: BitReader, book: HuffmanCodebook, s0: seq<int>, n: nat, mask: int) returns (s: seq<int>)
    requires reader.Valid() && ValidCodebook(book) && 0 < |s0| && n <= |s0|
    modifies reader
    ensures reader.Valid() && unchanged(reader`buffer, reader`bits)
    ensures var deltas := Run(Coded(book, false), reader.bits, old(reader.position), DeltaCount(n));
      s == Splice(s0, 0, DeltaChain(s0[0], deltas.Values, mask)) && reader.position == deltas.End
  {
    ghost var p0 := reader.position;
    ghost var done: seq<int> := [];
    s := s0;
    assert Placed(s0, s, 0, [s0[0]]);
    var i: nat := 1;
    while i < n
      invariant reader.Valid() && unchanged(reader`buffer, reader`bits)
      invariant 1 <= i && |done| == i - 1 && (i <= n || i == 1)
      invariant Run(Coded(book, false), reader.bits, p0, |done|) == Fields(done, reader.position)
      invariant Placed(s0, s, 0, DeltaChain(s0[0], done, mask))
    {
      s, done := DeltaNext(reader, book, s0, s, i, mask, p0, done);
      i := i + 1;
    }
    assert |done| == DeltaCount(n);
    PlacedSplice(s0, s, 0, DeltaChain(s0[0], done, mask));
  }

  /** One pass of an adjustment loop. */
  lemma AdjustStep(a: Adjustment, s0: seq<int>, s: seq<int>, i: nat)
    requires i < |s0| && AdjustmentFits(a, i + 1)
    requires Placed(s0, s, 0, AdjustedRun(a, s0[..i]))
    ensures Placed(s0, s[i := Adjusted(a, i, s[i])], 0, AdjustedRun(a, s0[..i + 1]))
  {
    assert s[i] == s0[i];
    assert s0[..i + 1] == s0[..i] + [s0[i]];
    assert AdjustedRun(a, s0[..i + 1]) == AdjustedRun(a, s0[..i]) + [Adjusted(a, i, s0[i])];
    PlaceNext(s0, s, 0, AdjustedRun(a, s0[..i]), Adjusted(a, i, s[i]));
  }

  /** An adjustment loop over the first n units. */
  method AdjustFactors(s0: seq<int>, a: Adjustment, n: nat) returns (s: seq<int>)
    requires n <= |s0| && AdjustmentFits(a, n)
    ensures s == Splice(s0, 0, AdjustedRun(a, s0[..n]))
  {
    s := s0;
    var i: nat := 0;
    while i < n
      invariant i <= n && Placed(s0, s, 0, AdjustedRun(a, s0[..i]))
    {
      AdjustStep(a, s0, s, i);
      s := s[i := Adjusted(a, i, s[i])];
      i := i + 1;
    }
    PlacedSplice(s0, s, 0, AdjustedRun(a, s0[..n]));
  }

  /** DeltaCoding spelled out: the running values over unit 0 set to `first`, then the adjustment. */
  lemma DeltaCodingIs(bits: seq<bool>, at: nat, sf: seq<int>, first: int, book: HuffmanCodebook, a: Adjustment, n: nat)
    requires ValidCodebook(book) && n <= UNIT_SLOTS && |sf| == SCALE_FACTOR_SLOTS && AdjustmentFits(a, n)
    ensures var deltas := Run(Coded(book, false), bits, at, DeltaCount(n));
      DeltaCoding(bits, at, sf, first, book, a, n) == Factors(DeltaRuns(sf, first, deltas.Values, book.ValueMax - 1, a, n), deltas.End)
  {
  }

  /** The two loops of a delta coding: unit 0 is `first`, then the running values, then the adjustment. */
  method ReadDeltaCoding(reader: BitReader, sf: seq<int>, first: int, book: HuffmanCodebook, a: Adjustment, n: nat)
    returns (s: seq<int>)
    requires reader.Valid() && ValidCodebook(book) && n <= UNIT_SLOTS && |sf| == SCALE_FACTOR_SLOTS && AdjustmentFits(a, n)
    modifies reader
    ensures reader.Valid() && unchanged(reader`buffer, reader`bits)
    ensures var f := DeltaCoding(reader.bits, old(reader.position), sf, first, book, a, n);
      s == f.Values && reader.position == f.End
  {
    s := sf[0 := first];
    s := ReadDeltas(reader, book, s, n, book.ValueMax - 1);
    s := AdjustFactors(s, a, n);
    DeltaCodingIs(reader.bits, old(reader.position), sf, first, book, a, n);
  }

  /** The distance loop on the reader. */
  method ReadDistanceRun(reader: BitReader, sf: seq<int>, book: HuffmanCodebook, baseline: seq<int>, n: nat)
    returns (s: seq<int>)
    requires reader.Valid() && ValidCodebook(book) && n <= UNIT_SLOTS
    requires |sf| == SCALE_FACTOR_SLOTS && |baseline| == SCALE_FACTOR_SLOTS
    modifies reader
    ensures reader.Valid() && unchanged(reader`buffer, reader`bits)
    ensures var f := DistanceRun(reader.bits, old(reader.position), sf, book, baseline, n);
      s == f.Values && reader.position == f.End
  {
    s := ReadStoredRun(reader, Coded(book, true), Distance(baseline), sf, 0, n);
  }

  /** The plain loop over the remaining units on the reader. */
  method ReadPlainRest(reader: BitReader, sf: seq<int>, from: nat, eu: nat) returns (s: seq<int>)
    requires reader.Valid() && from <= eu <= UNIT_SLOTS && |sf| == SCALE_FACTOR_SLOTS
    modifies reader
    ensures reader.Valid() && unchanged(reader`buffer, reader`bits)
    ensures var f := PlainRest(reader.bits, old(reader.position), sf, from, eu);
      s == f.Values && reader.position == f.End
  {
    s := ReadStoredRun(reader, Unsigned(RAW_BITS), Offset(0), sf, from, eu - from);
  }

  // ---------------------------------------------------------------------------------------------
  // The four coding readers

  /** The fixed-width header on the reader. */
  method ReadClcHeader(reader: BitReader) returns (h: ClcHead)
    requires reader.Valid()
    modifies reader
    ensures reader.Valid() && unchanged(reader`buffer, reader`bits)
    ensures h == ClcHeader(reader.bits, old(reader.position)) && reader.position == h.Start
  {
    PeekBits(reader.bits, reader.position, 2);
    var width := ReadField(reader, Unsigned(2));
    var bitLength: nat := width + 2;
    var baseValue := 0;
    if bitLength < MAX_CLC_BITS {
      baseValue := ReadField(reader, Unsigned(MAX_CLC_BITS));
    }
    h := ClcHead(bitLength, baseValue, reader.position);
  }

  /** `readClcOffset` on the reader. */
  method ReadClcOffset(reader: BitReader, eu: nat, sf: seq<int>) returns (s: seq<int>)
    requires reader.Valid() && eu <= UNIT_SLOTS && |sf| == SCALE_FACTOR_SLOTS
    modifies reader
    ensures reader.Valid() && unchanged(reader`buffer, reader`bits)
    ensures var f := ClcOffset(reader.bits, old(reader.position), eu, sf); s == f.Values && reader.position == f.End
  {
    var h := ReadClcHeader(reader);
    s := ReadStoredRun(reader, Unsigned(h.Width), Offset(h.Base), sf, 0, eu);
  }

  /** The header of `readVlcDeltaOffset` on the reader. */
  method ReadVlcDeltaHeader(reader: BitReader, t: CodecTables) returns (h: DeltaHead)
    requires reader.Valid() && ScaleFactorTables(t)
    modifies reader
    ensures reader.Valid() && unchanged(reader`buffer, reader`bits)
    ensures h == VlcDeltaHeader(reader.bits, old(reader.position), t) && reader.position == h.Start
  {
    PeekBits(reader.bits, reader.position, 3);
    ValueBound(reader.bits, reader.position, 3);
    var weightIndex := ReadField(reader, Unsigned(3));
    var weights := t.ScaleFactorWeights[weightIndex];
    var baseValue := ReadField(reader, Unsigned(5));
    PeekBits(reader.bits, reader.position, 2);
    var width := ReadField(reader, Unsigned(2));
    var bitLength: nat := width + 3;
    var book := t.HuffmanScaleFactorsUnsigned[bitLength];
    var first := ReadField(reader, Unsigned(bitLength));
    h := DeltaHead(book, ToInt8(first), LessWeights(baseValue, weights), reader.position);
  }

  /** `readVlcDeltaOffset` on the reader. */
  method ReadVlcDeltaOffset(reader: BitReader, eu: nat, sf: seq<int>, t: CodecTables) returns (s: seq<int>)
    requires reader.Valid() && ScaleFactorTables(t) && eu <= UNIT_SLOTS && |sf| == SCALE_FACTOR_SLOTS
    modifies reader
    ensures reader.Valid() && unchanged(reader`buffer, reader`bits)
    ensures var f := VlcDeltaOffset(reader.bits, old(reader.position), eu, sf, t); s == f.Values && reader.position == f.End
  {
    var h := ReadVlcDeltaHeader(reader, t);
    s := ReadDeltaCoding(reader, sf, h.First, h.Book, h.Adjust, eu);
  }

  /** The header of `readVlcDistanceToBaseline` on the reader. */
  method ReadDistanceBook(reader: BitReader, t: CodecTables) returns (book: HuffmanCodebook)
    requires reader.Valid() && ScaleFactorTables(t)
    modifies reader
    ensures reader.Valid() && unchanged(reader`buffer, reader`bits)
    ensures book == DistanceBook(reader.bits, old(reader.position), t)
    ensures reader.position == Read(Unsigned(2), reader.bits, old(reader.position)).Next
  {
    PeekBits(reader.bits, reader.position, 2);
    var width := ReadField(reader, Unsigned(2));
    var bitLength: nat := width + 2;
    book := t.HuffmanScaleFactorsSigned[bitLength];
  }

  /** `readVlcDistanceToBaseline` on the reader. */
  method ReadVlcDistanceToBaseline(reader: BitReader, eu: nat, sf: seq<int>, baseline: seq<int>, baselineLength: nat,
                                   t: CodecTables) returns (s: seq<int>)
    requires reader.Valid() && ScaleFactorTables(t) && eu <= UNIT_SLOTS
    requires |sf| == SCALE_FACTOR_SLOTS && |baseline| == SCALE_FACTOR_SLOTS
    modifies reader
    ensures reader.Valid() && unchanged(reader`buffer, reader`bits)
    ensures var f := VlcDistanceToBaseline(reader.bits, old(reader.position), eu, sf, baseline, baselineLength, t);
      s == f.Values && reader.position == f.End
  {
    var book := ReadDistanceBook(reader, t);
    var unitCount: nat := Min(eu, baselineLength);
    s := ReadDistanceRun(reader, sf, book, baseline, unitCount);
    s := ReadPlainRest(reader, s, unitCount, eu);
  }

  /** An offset-binary field on the reader. */
  method ReadOffsetField(reader: BitReader, n: nat, bias: int) returns (value: int)
    requires reader.Valid()
    modifies reader
    ensures reader.Valid() && unchanged(reader`buffer, reader`bits)
    ensures value == OffsetRead(reader.bits, old(reader.position), n, bias).Value
    ensures reader.position == OffsetRead(reader.bits, old(reader.position), n, bias).Next
  {
    value := reader.ReadOffsetBinary(n, bias);
  }

  /** The header of `readVlcDeltaOffsetWithBaseline` on the reader. */
  method ReadBaselineDeltaHeader(reader: BitReader, baseline: seq<int>, t: CodecTables) returns (h: DeltaHead)
    requires reader.Valid() && ScaleFactorTables(t) && |baseline| == SCALE_FACTOR_SLOTS
    modifies reader
    ensures reader.Valid() && unchanged(reader`buffer, reader`bits)
    ensures h == BaselineDeltaHeader(reader.bits, old(reader.position), baseline, t) && reader.position == h.Start
  {
    var baseValue := ReadOffsetField(reader, 5, OFFSET_NEGATIVE);
    PeekBits(reader.bits, reader.position, 2);
    var width := ReadField(reader, Unsigned(2));
    var bitLength: nat := width + 1;
    var book := t.HuffmanScaleFactorsUnsigned[bitLength];
    var first := ReadField(reader, Unsigned(bitLength));
    h := DeltaHead(book, ToInt8(first), PlusBaseline(baseValue, baseline), reader.position);
  }

  /** `readVlcDeltaOffsetWithBaseline` on the reader. */
  method ReadVlcDeltaOffsetWithBaseline(reader: BitReader, eu: nat, sf: seq<int>, baseline: seq<int>,
                                        baselineLength: nat, t: CodecTables) returns (s: seq<int>)
    requires reader.Valid() && ScaleFactorTables(t) && eu <= UNIT_SLOTS
    requires |sf| == SCALE_FACTOR_SLOTS && |baseline| == SCALE_FACTOR_SLOTS
    modifies reader
    ensures reader.Valid() && unchanged(reader`buffer, reader`bits)
    ensures var f := VlcDeltaOffsetWithBaseline(reader.bits, old(reader.position), eu, sf, baseline, baselineLength, t);
      s == f.Values && reader.position == f.End
  {
    var h := ReadBaselineDeltaHeader(reader, baseline, t);
    var unitCount: nat := Min(eu, baselineLength);
    s := ReadDeltaCoding(reader, sf, h.First, h.Book, h.Adjust, unitCount);
    s := ReadPlainRest(reader, s, unitCount, eu);
  }

  // ---------------------------------------------------------------------------------------------
  // `ScaleFactors.read` on the reader and the channel

  /** The range loop over the units below eu. */
  method CheckRange(s: seq<int>, eu: nat) returns (ok: bool)
    requires eu <= |s|
    ensures ok == InRange(s, eu)
  {
    var i: nat := 0;
    while i < eu
      invariant i <= eu && InRange(s, i)
    {
      if s[i] < 0 || s[i] > MAX_SCALE_FACTOR {
        return false;
      }
      i := i + 1;
    }
    return true;
  }

  /** The two switches on the mode: a refused mode fails, any other runs its coding over sf. */
  method ReadSelected(reader: BitReader, mode: int, c: Context, sf: seq<int>, t: CodecTables)
    returns (r: Result<seq<int>, DecodeError>)
    requires reader.Valid() && ScaleFactorTables(t) && ContextShaped(c) && |sf| == SCALE_FACTOR_SLOTS
    modifies reader
    ensures reader.Valid() && unchanged(reader`buffer, reader`bits)
    ensures var selected := Selected(reader.bits, old(reader.position), mode, c, sf, t);
      && r.Success? == selected.Success?
      && (r.Success? ==> r.value == selected.value.Values && reader.position == selected.value.End)
      && (r.Failure? ==> r.error == selected.error && reader.position == old(reader.position))
  {
    var eu := c.ExtensionUnit;
    if NeedsPrevious(c.ChannelIndex, mode) && c.FirstInSuperframe {
      return Failure(InvalidData(""));
    }
    var s;
    if mode == 0 {
      s := ReadVlcDeltaOffset(reader, eu, sf, t);
    } else if c.ChannelIndex == 0 {
      if mode == 1 {
        s := ReadClcOffset(reader, eu, sf);
      } else if mode == 2 {
        s := ReadVlcDistanceToBaseline(reader, eu, sf, c.Previous, c.PreviousUnits, t);
      } else {
        s := ReadVlcDeltaOffsetWithBaseline(reader, eu, sf, c.Previous, c.PreviousUnits, t);
      }
    } else {
      if mode == 1 {
        s := ReadVlcDistanceToBaseline(reader, eu, sf, c.Primary, eu, t);
      } else if mode == 2 {
        s := ReadVlcDeltaOffsetWithBaseline(reader, eu, sf, c.Primary, eu, t);
      } else {
        s := ReadVlcDistanceToBaseline(reader, eu, sf, c.Previous, c.PreviousUnits, t);
      }
    }
    return Success(s);
  }

  /** What the read depends on: the channel's index and previous factors, the block's flags, and channel 0's factors. */
  function ContextOf(block: Block, channel: Channel): (c: Context)
    reads block, channel, block.Channels
    requires |block.Channels| > 0 && 0 <= block.ExtensionUnit && 0 <= block.QuantizationUnitsPrev
    ensures c.ChannelIndex == channel.ChannelIndex && c.Previous == channel.ScaleFactorsPrev
  {
    Context(channel.ChannelIndex, block.FirstInSuperframe, block.ExtensionUnit, channel.ScaleFactorsPrev,
      block.QuantizationUnitsPrev, block.Channels[0].ScaleFactors)
  }

  /** The read on the reader alone: the mode, the factors the attempt leaves, and whether the read passes. */
  method ReadChecked(reader: BitReader, c: Context, t: CodecTables) returns (mode: int, values: seq<int>, r: Outcome<DecodeError>)
    requires reader.Valid() && ScaleFactorTables(t) && ContextShaped(c)
    modifies reader
    ensures reader.Valid() && unchanged(reader`buffer, reader`bits)
    ensures var expected := ScaleFactorsRead(reader.bits, old(reader.position), c, t);
      && r.Pass? == expected.Success?
      && (r.Fail? ==> r.error == expected.error)
    ensures var attempt := Attempt(reader.bits, old(reader.position), c, t);
      values == attempt.Values && reader.position == attempt.End
    ensures mode == Read(Unsigned(2), reader.bits, old(reader.position)).Value
  {
    mode := ReadField(reader, Unsigned(2));
    var selected := ReadSelected(reader, mode, c, Zeros(), t);
    if selected.Failure? {
      return mode, Zeros(), Fail(selected.error);
    }
    values := selected.value;
    var ok := CheckRange(values, c.ExtensionUnit);
    if !ok {
      return mode, values, Fail(InvalidData(OUT_OF_RANGE));
    }
    r := Pass;
  }

  /**
   * `ScaleFactors.read`: the factors zeroed, the mode stored, the coding it selects, the range
   * check; the previous factors follow the new ones only when the check passes.
   */
  method ReadScaleFactors(reader: BitReader, block: Block, channel: Channel, t: CodecTables) returns (r: Outcome<DecodeError>)
    requires reader.Valid() && ScaleFactorTables(t) && channel.Valid()
    requires 0 < |block.Channels| && |block.Channels[0].ScaleFactors| == SCALE_FACTOR_SLOTS
    requires 0 <= block.ExtensionUnit <= UNIT_SLOTS && 0 <= block.QuantizationUnitsPrev
    modifies reader, channel
    ensures reader.Valid() && unchanged(reader`buffer, reader`bits) && channel.Valid()
    ensures var p := old(reader.position);
      var c := old(ContextOf(block, channel));
      var expected := ScaleFactorsRead(reader.bits, p, c, t);
      var attempt := Attempt(reader.bits, p, c, t);
      && r.Pass? == expected.Success?
      && (r.Fail? ==> r.error == expected.error)
      && reader.position == attempt.End
      && channel.State() == old(channel.State()).(
           ScaleFactorCodingMode := Read(Unsigned(2), reader.bits, p).Value,
           ScaleFactors := attempt.Values,
           ScaleFactorsPrev := if r.Pass? then attempt.Values else old(channel.ScaleFactorsPrev))
  {
    var mode, values;
    mode, values, r := ReadChecked(reader, ContextOf(block, channel), t);
    var previous := if r.Pass? then values else channel.ScaleFactorsPrev;
    channel.StoreScaleFactors(mode, values, previous);
  }
}
