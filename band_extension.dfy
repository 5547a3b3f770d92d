/**
 * Band extension: the high-frequency units a block does not code are filled by mirroring the
 * coded spectrum upwards and, in the gain modes 0 and 1, by noise, and are then scaled. Which
 * bins each mode writes, copies and scales is modelled; the floating-point values are `real`
 * numbers taken from the loaded tables.
 */
module BandExtension {
  import opened Wrappers
  import opened Tables
  import opened RuntimeTables
  import opened DecodeState
  import opened BlockUnpacking
  import opened NoiseGenerator
  import opened JsInt
  import Q = Quantization
  import opened BandExtensionInfo

  /** `Math.max(groupCUnit, 22)`: the extended range always reaches unit 22. */
  function TotalUnits(groupCUnit: int): (r: int)
    ensures r >= 22 && r >= groupCUnit && (r == 22 || r == groupCUnit)
  {
    if groupCUnit > 22 then groupCUnit else 22
  }

  /** A mirror up from bin `lo` to bin `hi` stays inside the spectrum: it reads no bin below 0. */
  predicate MirrorRange(lo: int, hi: int)
  {
    0 <= lo && hi <= 2 * lo && hi <= BIN_SLOTS
  }

  /** The first bin of groups A, B and C and the end of the extended range. */
  datatype GroupBins = GroupBins(A: int, B: int, C: int, Total: int)

  /** The three mirrors of `fillHighFrequencies` stay inside the spectrum. */
  predicate Mirrors(g: GroupBins)
  {
    MirrorRange(g.A, g.B) && MirrorRange(g.B, g.C) && MirrorRange(g.C, g.Total)
  }

  /** The bins a block of `units` units extends from, by its group-info row. */
  function BinsOf(units: int, info: BexBandInfo): GroupBins
  {
    GroupBins(UnitStart(units), UnitStart(info.GroupBUnit), UnitStart(info.GroupCUnit), UnitStart(TotalUnits(info.GroupCUnit)))
  }

  /** Groups starting at units `a`, `b` and `c` name transform units, and their mirrors stay inside the spectrum. */
  predicate GroupsFit(a: int, b: int, c: int)
  {
    && 0 <= b <= UNIT_SLOTS && 0 <= c <= UNIT_SLOTS
    && Mirrors(GroupBins(UnitStart(a), UnitStart(b), UnitStart(c), UnitStart(TotalUnits(c))))
  }

  /**
   * The band-extension tables as loaded: one group-info row per unit count from 13 to 30 whose
   * groups fit, and the five, five and three rows the mode-0 band tables are read at.
   */
  predicate BexLayout(t: CodecTables)
  {
    && BexTables(t)
    && (forall r :: 0 <= r < 18 ==> GroupsFit(r + 13, t.BexGroupInfo[r][0], t.BexGroupInfo[r][1]))
    && |t.BexMode0Bands3| >= 5 && |t.BexMode0Bands4| >= 5 && |t.BexMode0Bands5| >= 3
  }

  /** The groups of a unit count that has a group-info row fit the spectrum. */
  lemma InfoFits(units: int, t: CodecTables)
    requires BexLayout(t) && 13 <= units <= UNIT_SLOTS
    ensures var info := GetBexBandInfo(units, t).value;
      GroupsFit(units, info.GroupBUnit, info.GroupCUnit) && Mirrors(BinsOf(units, info))
  {
    var r := units - 13;
    assert GroupsFit(r + 13, t.BexGroupInfo[r][0], t.BexGroupInfo[r][1]);
  }

  // ---------------------------------------------------------------------------------------
  // fillHighFrequencies

  /** The bin the mirror from `lo` to `hi` copies into bin k: its reflection below `lo`, or k itself. */
  function Reflect(k: int, lo: int, hi: int): int
  {
    if lo <= k < hi then 2 * lo - 1 - k else k
  }

  /** The spectrum after `for (i = 0; i < hi - lo; i++) s[lo + i] = s[lo - i - 1]`. */
  function Mirrored(s: seq<real>, lo: int, hi: int): (r: seq<real>)
    requires |s| == BIN_SLOTS && MirrorRange(lo, hi)
    ensures |r| == BIN_SLOTS
  {
    seq(BIN_SLOTS, k requires 0 <= k < BIN_SLOTS => s[Reflect(k, lo, hi)])
  }

  /** The spectrum after `fillHighFrequencies`: group A mirrored upwards, then group B, then group C. */
  function FillHigh(s: seq<real>, g: GroupBins): (r: seq<real>)
    requires |s| == BIN_SLOTS && Mirrors(g)
    ensures |r| == BIN_SLOTS
  {
    Mirrored(Mirrored(Mirrored(s, g.A, g.B), g.B, g.C), g.C, g.Total)
  }

  /**
   * Each bin after the fill is a copy of one bin before it. With the groups in order, the bins
   * below group A and from the end of the range on keep their values, and every bin of the
   * extended range copies a bin below group A: the extension is built from coded bins only.
   */
  lemma FillHighCopiesCoded(s: seq<real>, g: GroupBins, k: int)
    requires |s| == BIN_SLOTS && Mirrors(g) && 0 <= k < BIN_SLOTS
    ensures var j := Reflect(Reflect(Reflect(k, g.C, g.Total), g.B, g.C), g.A, g.B);
      && 0 <= j < BIN_SLOTS && FillHigh(s, g)[k] == s[j]
      && (g.A <= g.B <= g.C <= g.Total && (k < g.A || g.Total <= k) ==> j == k)
      && (g.A <= g.B <= g.C <= g.Total && g.A <= k < g.Total ==> j < g.A)
  {
    var j1 := Reflect(k, g.C, g.Total);
    var j2 := Reflect(j1, g.B, g.C);
    var first := Mirrored(s, g.A, g.B);
    var second := Mirrored(first, g.B, g.C);
    assert FillHigh(s, g)[k] == second[j1];
    assert second[j1] == first[j2];
  }

  /** Mirroring twice over the same range changes nothing more: the bins it reads lie below it. */
  lemma MirroredIdempotent(s: seq<real>, lo: int, hi: int)
    requires |s| == BIN_SLOTS && MirrorRange(lo, hi)
    ensures Mirrored(Mirrored(s, lo, hi), lo, hi) == Mirrored(s, lo, hi)
  {
    var once := Mirrored(s, lo, hi);
    assert forall k :: 0 <= k < BIN_SLOTS ==> Mirrored(once, lo, hi)[k] == once[k];
  }

  /** One loop of `fillHighFrequencies`: bin lo + i takes bin lo - i - 1, for i below hi - lo. */
  method MirrorBins(spectra: array<real>, lo: int, hi: int)
    requires spectra.Length == BIN_SLOTS && MirrorRange(lo, hi)
    modifies spectra
    ensures spectra[..] == Mirrored(old(spectra[..]), lo, hi)
  {
    ghost var before := spectra[..];
    var i := 0;
    while i < hi - lo
      invariant 0 <= i && (i <= hi - lo || i == 0)
      invariant forall k :: 0 <= k < BIN_SLOTS ==> spectra[k] == before[Reflect(k, lo, lo + i)]
    {
      spectra[lo + i] := spectra[lo - i - 1];
      i := i + 1;
    }
    assert forall k :: 0 <= k < BIN_SLOTS ==> spectra[..][k] == Mirrored(before, lo, hi)[k];
  }

  /** `fillHighFrequencies`: the three mirrors in order, each reading what the one before left. */
  method FillHighFrequencies(spectra: array<real>, g: GroupBins)
    requires spectra.Length == BIN_SLOTS && Mirrors(g)
    modifies spectra
    ensures spectra[..] == FillHigh(old(spectra[..]), g)
  {
    MirrorBins(spectra, g.A, g.B);
    MirrorBins(spectra, g.B, g.C);
    MirrorBins(spectra, g.C, g.Total);
  }

  // ---------------------------------------------------------------------------------------
  // scaleBexQuantUnits

  /** The spectrum after `scaleBexQuantUnits`: each bin of unit u in [start, total) times `scales[u - start]`. */
  function UnitsScaled(s: seq<real>, scales: seq<real>, start: int, total: int): (r: seq<real>)
    requires |s| == BIN_SLOTS && 0 <= start && 0 <= total <= UNIT_SLOTS
    ensures |r| == BIN_SLOTS
  {
    UnitOfBins();
    seq(BIN_SLOTS, k requires 0 <= k < BIN_SLOTS =>
      if UnitStart(start) <= k < UnitStart(total) then s[k] * RealAt(scales, UnitOf(k) - start) else s[k])
  }

  /**
   * Unit scaling bin by bin: a bin of unit u in [start, total) is multiplied by the scale at
   * u - start, and a bin of any unit outside that range keeps its value.
   */
  lemma UnitsScaledBins(s: seq<real>, scales: seq<real>, start: int, total: int, u: int, k: int)
    requires |s| == BIN_SLOTS && 0 <= start && 0 <= total <= UNIT_SLOTS
    requires 0 <= u < UNIT_SLOTS && UnitStart(u) <= k < UnitStart(u + 1)
    ensures start <= u < total ==> UnitsScaled(s, scales, start, total)[k] == s[k] * RealAt(scales, u - start)
    ensures !(start <= u < total) ==> UnitsScaled(s, scales, start, total)[k] == s[k]
  {
    UnitLayout(u);
    UnitOfBin(k, u);
  }

  /** A spectrum that agrees with `UnitsScaled` bin by bin is the scaled spectrum. */
  lemma UnitsScaledFromBins(before: seq<real>, after: seq<real>, scales: seq<real>, start: int, total: int)
    requires |before| == BIN_SLOTS && |after| == BIN_SLOTS && 0 <= start && 0 <= total <= UNIT_SLOTS
    requires forall k :: 0 <= k < BIN_SLOTS ==>
      after[k] == (if UnitStart(start) <= k < UnitStart(total) then before[k] * RealAt(scales, UnitOf(k) - start) else before[k])
    ensures after == UnitsScaled(before, scales, start, total)
  {
    assert forall k :: 0 <= k < BIN_SLOTS ==> after[k] == UnitsScaled(before, scales, start, total)[k];
  }

  /** `scaleBexQuantUnits`: the unit loop, each unit's bins scaled by the inner loop. */
  method ScaleBexQuantUnits(spectra: array<real>, scales: seq<real>, start: int, total: int)
    requires spectra.Length == BIN_SLOTS && 0 <= start && 0 <= total <= UNIT_SLOTS
    modifies spectra
    ensures spectra[..] == UnitsScaled(old(spectra[..]), scales, start, total)
  {
    UnitOfBins();
    ghost var before := spectra[..];
    var i := start;
    while i < total
      invariant start <= i && (i <= total || i == start)
      invariant forall k :: 0 <= k < BIN_SLOTS ==>
        spectra[k] == (if UnitStart(start) <= k < UnitStart(i) then before[k] * RealAt(scales, UnitOf(k) - start) else before[k])
    {
      UnitLayout(i);
      UnitStartMonotone(start, i);
      Q.ScaleBins(spectra, UnitStart(i), UnitStart(i + 1), RealAt(scales, i - start));
      forall k | UnitStart(i) <= k < UnitStart(i + 1)
        ensures UnitOf(k) == i
      {
        UnitOfBin(k, i);
      }
      i := i + 1;
    }
    UnitsScaledFromBins(before, spectra[..], scales, start, total);
  }

  // ---------------------------------------------------------------------------------------
  // addNoiseToSpectrum

  /** The seed of a channel's generator: 543 times one more than the sum of scale factors 8, 12 and 15. */
  function NoiseSeed(scaleFactors: seq<int>): int
    requires |scaleFactors| == SCALE_FACTOR_SLOTS
  {
    543 * (scaleFactors[8] + scaleFactors[12] + scaleFactors[15] + 1)
  }

  /** The generator a noise fill draws from: the channel's own, or a new one seeded from its scale factors. */
  function NoiseStart(c: ChannelState): (r: RngState)
    requires |c.ScaleFactors| == SCALE_FACTOR_SLOTS
    ensures c.Rng.Some? ==> r == c.Rng.value
    ensures c.Rng.None? ==> r == Seeded(NoiseSeed(c.ScaleFactors))
  {
    if c.Rng.Some? then c.Rng.value else Seeded(NoiseSeed(c.ScaleFactors))
  }

  /** A generator output as a noise bin: `v / 65535 * 2 - 1`, over unmasked 32-bit outputs. */
  function NoiseSample(v: int): real
  {
    v as real / 65535.0 * 2.0 - 1.0
  }

  /** The number of passes of `for (i = 0; i < count; i++)`. */
  function Passes(count: int): (n: nat)
    ensures count <= 0 ==> n == 0
    ensures count > 0 ==> n == count
  {
    if count > 0 then count else 0
  }

  /** The spectrum after a noise fill of `count` bins from `index`: bin index + i holds the (i+1)-th output from `start`. */
  function Noised(s: seq<real>, start: RngState, index: int, count: int): (r: seq<real>)
    requires |s| == BIN_SLOTS && 0 <= index && index + Passes(count) <= BIN_SLOTS
    ensures |r| == BIN_SLOTS
  {
    var n := Passes(count);
    var draws := Outputs(start, n);
    seq(BIN_SLOTS, k requires 0 <= k < BIN_SLOTS => if index <= k < index + n then NoiseSample(draws[k - index]) else s[k])
  }

  /**
   * A noise fill overwrites exactly bins [index, index + count), each with its own output of the
   * generator in draw order, and no other bin.
   */
  lemma NoisedBins(s: seq<real>, start: RngState, index: int, count: int, k: int)
    requires |s| == BIN_SLOTS && 0 <= index && index + Passes(count) <= BIN_SLOTS && 0 <= k < BIN_SLOTS
    ensures index <= k < index + count ==> Noised(s, start, index, count)[k] == NoiseSample(After(start, k - index + 1).A)
    ensures !(index <= k < index + count) ==> Noised(s, start, index, count)[k] == s[k]
  {
    var n := Passes(count);
    var r := Noised(s, start, index, count);
    if index <= k < index + count {
      assert r[k] == NoiseSample(Outputs(start, n)[k - index]);
      OutputAt(start, n, k - index);
    } else {
      assert r[k] == s[k];
    }
  }

  /**
   * Two fills from one generator, the second taking up where the first left it, draw what one
   * fill of both lengths draws: the generator a channel keeps continues one stream.
   */
  lemma NoiseFillsContinue(start: RngState, first: nat, second: nat)
    ensures Outputs(start, first) + Outputs(After(start, first), second) == Outputs(start, first + second)
  {
    NoiseContinues(start, first, second);
    OutputsPrefix(start, first, first + second);
  }

  /** The first m outputs of a longer stream are the stream of m outputs. */
  lemma OutputsPrefix(s: RngState, m: nat, n: nat)
    requires m <= n
    ensures Outputs(s, m) == Outputs(s, n)[..m]
  {
    forall k | 0 <= k < m
      ensures Outputs(s, m)[k] == Outputs(s, n)[k]
    {
      OutputAt(s, m, k);
      OutputAt(s, n, k);
    }
  }

  /** The generator a noise fill starts from, as `addNoiseToSpectrum` obtains it. */
  method OpenRng(channel: Channel) returns (rng: Atrac9Rng)
    requires |channel.ScaleFactors| == SCALE_FACTOR_SLOTS
    ensures fresh(rng) && rng.State() == NoiseStart(channel.State())
  {
    if channel.Rng.None? {
      rng := new Atrac9Rng(NoiseSeed(channel.ScaleFactors));
    } else {
      rng := new Atrac9Rng.Resumed(channel.Rng.value);
    }
  }

  /** The loop of `addNoiseToSpectrum`: `count` outputs of `rng` written from bin `index` on. */
  method DrawNoise(spectra: array<real>, rng: Atrac9Rng, index: int, count: int)
    requires spectra.Length == BIN_SLOTS && 0 <= index && index + Passes(count) <= BIN_SLOTS
    modifies spectra, rng
    ensures rng.State() == After(old(rng.State()), Passes(count))
    ensures spectra[..] == Noised(old(spectra[..]), old(rng.State()), index, count)
  {
    ghost var start := rng.State();
    ghost var before := spectra[..];
    var i := 0;
    while i < count
      invariant 0 <= i && (i <= count || i == 0)
      invariant rng.State() == After(start, i)
      invariant forall k :: 0 <= k < BIN_SLOTS ==>
        spectra[k] == (if index <= k < index + i then NoiseBin(start, index, k) else before[k])
    {
      DrawOne(spectra, rng, index, i, start);
      i := i + 1;
    }
    NoisedFromBins(before, spectra[..], start, index, count);
  }

  /** Bin k of a noise fill from bin `index`: the (k - index + 1)-th output, as a noise value. */
  function NoiseBin(start: RngState, index: int, k: int): real
    requires index <= k
  {
    NoiseSample(After(start, k - index + 1).A)
  }

  /** One pass of the noise loop: the generator's next output, as a noise bin, written to bin `index + i`. */
  method DrawOne(spectra: array<real>, rng: Atrac9Rng, index: int, i: nat, ghost start: RngState)
    requires spectra.Length == BIN_SLOTS && 0 <= index && index + i < BIN_SLOTS && rng.State() == After(start, i)
    modifies spectra, rng
    ensures rng.State() == After(start, i + 1)
    ensures forall k :: 0 <= k < BIN_SLOTS ==>
      spectra[k] == (if k == index + i then NoiseBin(start, index, k) else old(spectra[k]))
  {
    var value := NextOutput(rng, start, i);
    assert NoiseBin(start, index, index + i) == NoiseSample(After(start, i + 1).A);
    spectra[i + index] := value as real / 65535.0 * 2.0 - 1.0;
  }

  /** `rng.next()` on a generator `i` draws into the stream from `start`: the next word of that stream. */
  method NextOutput(rng: Atrac9Rng, ghost start: RngState, ghost i: nat) returns (value: int32)
    requires rng.State() == After(start, i)
    modifies rng
    ensures rng.State() == After(start, i + 1) && value as int == After(start, i + 1).A
  {
    value := rng.Next();
    AfterStep(start, i);
  }

  /** A spectrum that agrees with `Noised` bin by bin is the noised spectrum. */
  lemma NoisedFromBins(before: seq<real>, after: seq<real>, start: RngState, index: int, count: int)
    requires |before| == BIN_SLOTS && |after| == BIN_SLOTS && 0 <= index && index + Passes(count) <= BIN_SLOTS
    requires forall k :: 0 <= k < BIN_SLOTS ==>
      after[k] == (if index <= k < index + Passes(count) then NoiseBin(start, index, k) else before[k])
    ensures after == Noised(before, start, index, count)
  {
    forall k | 0 <= k < BIN_SLOTS
      ensures after[k] == Noised(before, start, index, count)[k]
    {
      NoisedBins(before, start, index, count, k);
    }
  }

  /**
   * `addNoiseToSpectrum`: the channel's generator, created on first use, fills `count` bins from
   * `index` and is kept, advanced by `count` draws, for the next fill.
   */
  method AddNoiseToSpectrum(channel: Channel, index: int, count: int)
    requires channel.Valid() && 0 <= index && index + Passes(count) <= BIN_SLOTS
    modifies channel, channel.Spectra
    ensures channel.Valid()
    ensures channel.Spectra[..] == Noised(old(channel.Spectra[..]), NoiseStart(old(channel.State())), index, count)
    ensures channel.State() == old(channel.State()).(Rng := Some(After(NoiseStart(old(channel.State())), Passes(count))))
  {
    var rng := OpenRng(channel);
    DrawNoise(channel.Spectra, rng, index, count);
    channel.StoreRng(rng.State());
  }

  // ---------------------------------------------------------------------------------------
  // The gain modes

  /** A scale of a mode-0 band table: row `row` at the coded value, 0 when the value is outside it. */
  function BandScale(rows: seq<seq<real>>, row: nat, value: int): real
    requires row < |rows|
  {
    RealAt(rows[row], value)
  }

  /** The five scales the band tables for three and four bands set. */
  function FiveBandScales(scales: seq<real>, rows: seq<seq<real>>, values: seq<int>): (r: seq<real>)
    requires |scales| >= 6 && |rows| >= 5 && |values| == 4
    ensures |r| == |scales| && r[5..] == scales[5..]
    ensures r[..5] == [BandScale(rows, 0, values[0]), BandScale(rows, 1, values[0]),
      BandScale(rows, 2, values[1]), BandScale(rows, 3, values[2]), BandScale(rows, 4, values[3])]
  {
    scales[0 := BandScale(rows, 0, values[0])][1 := BandScale(rows, 1, values[0])]
      [2 := BandScale(rows, 2, values[1])][3 := BandScale(rows, 3, values[2])][4 := BandScale(rows, 4, values[3])]
  }

  /** The three scales the band table for five bands sets. */
  function ThreeBandScales(scales: seq<real>, rows: seq<seq<real>>, values: seq<int>): (r: seq<real>)
    requires |scales| >= 6 && |rows| >= 3 && |values| == 4
    ensures |r| == |scales| && r[3..] == scales[3..]
    ensures r[..3] == [BandScale(rows, 0, values[0]), BandScale(rows, 1, values[1]), BandScale(rows, 2, values[1])]
  {
    scales[0 := BandScale(rows, 0, values[0])][1 := BandScale(rows, 1, values[1])][2 := BandScale(rows, 2, values[1])]
  }

  /** The band-count switch of mode 0: band counts other than 3, 4 and 5 set no scale. */
  function Mode0BandScales(scales: seq<real>, bandCount: int, values: seq<int>, t: CodecTables): (r: seq<real>)
    requires |scales| >= 6 && |values| == 4 && BexLayout(t)
    ensures |r| == |scales|
    ensures bandCount !in {3, 4, 5} ==> r == scales
  {
    if bandCount == 3 then FiveBandScales(scales, t.BexMode0Bands3, values)
    else if bandCount == 4 then FiveBandScales(scales, t.BexMode0Bands4, values)
    else if bandCount == 5 then ThreeBandScales(scales, t.BexMode0Bands5, values)
    else scales
  }

  /**
   * `scales[i] = v` on the plain array of scales: an index below 0 names no element, and an
   * index at or past the end lengthens the array (the entries in between read as 0 here).
   */
  function SetScale(scales: seq<real>, i: int, v: real): (r: seq<real>)
    ensures i < 0 ==> r == scales
    ensures 0 <= i ==> |r| == (if i < |scales| then |scales| else i + 1) && r[i] == v
    ensures 0 <= i ==> forall k :: 0 <= k < |scales| && k != i ==> r[k] == scales[k]
  {
    if i < 0 then scales
    else if i < |scales| then scales[i := v]
    else scales + seq(i - |scales|, _ => 0.0) + [v]
  }

  /** The scale list of mode 1 after the passes for units `start` to `i - 1`: entry u - start takes unit u's spectrum scale. */
  function Mode1Scales(scales: seq<real>, scaleFactors: seq<int>, start: int, i: int, t: CodecTables): (r: seq<real>)
    requires |scaleFactors| == SCALE_FACTOR_SLOTS && 0 <= start && i <= SCALE_FACTOR_SLOTS
    decreases i - start
  {
    if i <= start then scales
    else SetScale(Mode1Scales(scales, scaleFactors, start, i - 1, t), i - 1 - start, RealAt(t.SpectrumScale, scaleFactors[i - 1]))
  }

  /**
   * After the mode-1 loop over units [start, i) the list covers those units, entry u - start holds
   * `SpectrumScale[scaleFactors[u]]` for each, and the entries past them are the old ones.
   */
  lemma {:induction false} Mode1ScalesAt(scales: seq<real>, scaleFactors: seq<int>, start: int, i: int, t: CodecTables)
    requires |scaleFactors| == SCALE_FACTOR_SLOTS && 0 <= start <= i <= SCALE_FACTOR_SLOTS
    ensures var r := Mode1Scales(scales, scaleFactors, start, i, t);
      && |r| >= |scales| && |r| >= i - start
      && (forall u :: start <= u < i ==> r[u - start] == RealAt(t.SpectrumScale, scaleFactors[u]))
      && (forall k :: i - start <= k < |scales| ==> r[k] == scales[k])
    decreases i - start
  {
    if i > start {
      Mode1ScalesAt(scales, scaleFactors, start, i - 1, t);
    }
  }

  /** The loop of mode 1 writing the scale list, one unit per pass. */
  method FillMode1Scales(scales: seq<real>, scaleFactors: seq<int>, start: int, total: int, t: CodecTables)
    returns (r: seq<real>)
    requires |scaleFactors| == SCALE_FACTOR_SLOTS && 0 <= start <= SCALE_FACTOR_SLOTS && total <= SCALE_FACTOR_SLOTS
    ensures r == Mode1Scales(scales, scaleFactors, start, total, t)
  {
    r := scales;
    var i := start;
    while i < total
      invariant start <= i && (i <= total || i == start)
      invariant r == Mode1Scales(scales, scaleFactors, start, i, t)
    {
      r := SetScale(r, i - start, RealAt(t.SpectrumScale, scaleFactors[i]));
      i := i + 1;
    }
  }

  /** `rate` to the n-th power. */
  function Power(rate: real, n: nat): real
  {
    if n == 0 then 1.0 else Power(rate, n - 1) * rate
  }

  /** The spectrum after the loop of mode 3: bin lo + n multiplied by `initial * rate^(n+1)`. */
  function Ramped(s: seq<real>, lo: int, hi: int, initial: real, rate: real): (r: seq<real>)
    requires |s| == BIN_SLOTS && 0 <= lo && hi <= BIN_SLOTS
    ensures |r| == BIN_SLOTS
  {
    seq(BIN_SLOTS, k requires 0 <= k < BIN_SLOTS => if lo <= k < hi then s[k] * (initial * Power(rate, k - lo + 1)) else s[k])
  }

  /** The loop of mode 3: the scale grows by `rate` before each bin it multiplies. */
  method RampBins(spectra: array<real>, lo: int, hi: int, initial: real, rate: real)
    requires spectra.Length == BIN_SLOTS && 0 <= lo && hi <= BIN_SLOTS
    modifies spectra
    ensures spectra[..] == Ramped(old(spectra[..]), lo, hi, initial, rate)
  {
    ghost var before := spectra[..];
    var scale := initial;
    var i := lo;
    while i < hi
      invariant lo <= i && (i <= hi || i == lo)
      invariant scale == initial * Power(rate, i - lo)
      invariant forall k :: 0 <= k < BIN_SLOTS ==>
        spectra[k] == (if lo <= k < i then before[k] * (initial * Power(rate, k - lo + 1)) else before[k])
    {
      assert initial * Power(rate, i - lo) * rate == initial * Power(rate, i - lo + 1);
      scale := scale * rate;
      spectra[i] := spectra[i] * scale;
      i := i + 1;
    }
    assert forall k :: 0 <= k < BIN_SLOTS ==> spectra[..][k] == Ramped(before, lo, hi, initial, rate)[k];
  }

  /** What band extension leaves in a channel: its spectrum, its scale list and its generator. */
  datatype Extension = Extension(Spectrum: seq<real>, Scales: seq<real>, Rng: Option<RngState>)

  /** The three gains of mode 4 before the table's multiplier. */
  const MODE4_GAIN_A: real := 0.7079468
  const MODE4_GAIN_B: real := 0.5011902
  const MODE4_GAIN_C: real := 0.3548279

  /**
   * The tail the two noise modes share: `count` bins from `index` filled with noise from `start`,
   * then units [units, total) scaled by `scales`; the generator ends `count` draws further on.
   */
  function NoiseScaled(s: seq<real>, start: RngState, scales: seq<real>, units: int, total: int, index: int, count: int)
    : (r: Extension)
    requires |s| == BIN_SLOTS && 0 <= units && 0 <= total <= UNIT_SLOTS && 0 <= index && index + Passes(count) <= BIN_SLOTS
    ensures |r.Spectrum| == BIN_SLOTS && r.Scales == scales && r.Rng == Some(After(start, Passes(count)))
  {
    Extension(UnitsScaled(Noised(s, start, index, count), scales, units, total), scales, Some(After(start, Passes(count))))
  }

  /**
   * Mode 0: the band tables set the first scales and the spectrum scale of group A's first unit
   * the last one; the last unit of the range is filled with noise; then every unit of the range is scaled.
   */
  function Mode0(c: ChannelState, start: RngState, s: seq<real>, units: int, info: BexBandInfo, t: CodecTables): (r: Extension)
    requires ChannelSized(c) && |s| == BIN_SLOTS && BexLayout(t) && 13 <= units <= UNIT_SLOTS
    requires GroupsFit(units, info.GroupBUnit, info.GroupCUnit)
  {
    var total := TotalUnits(info.GroupCUnit);
    var scales := SetScale(Mode0BandScales(c.BexScales, info.BandCount, c.BexValues, t),
      total - units - 1, RealAt(t.SpectrumScale, c.ScaleFactors[units]));
    UnitLayout(total - 1);
    NoiseScaled(s, start, scales, units, total, UnitStart(total - 1), UnitSize(total - 1))
  }

  /** Mode 1: each unit of the range takes its own spectrum scale, the whole range is filled with noise, then scaled. */
  function Mode1(c: ChannelState, start: RngState, s: seq<real>, units: int, info: BexBandInfo, t: CodecTables): (r: Extension)
    requires ChannelSized(c) && |s| == BIN_SLOTS && 13 <= units <= UNIT_SLOTS
    requires GroupsFit(units, info.GroupBUnit, info.GroupCUnit)
  {
    var total := TotalUnits(info.GroupCUnit);
    var g := BinsOf(units, info);
    var scales := Mode1Scales(c.BexScales, c.ScaleFactors, units, total, t);
    UnitStartMonotone(units, UNIT_SLOTS);
    NoiseScaled(s, start, scales, units, total, g.A, g.Total - g.A)
  }

  /** Mode 2: groups A and B scaled by the two table gains the values select. */
  function Mode2(s: seq<real>, g: GroupBins, values: seq<int>, t: CodecTables): (r: seq<real>)
    requires |s| == BIN_SLOTS && Mirrors(g) && |values| == 4
  {
    Q.Gained(Q.Gained(s, g.A, g.B, RealAt(t.BexMode2Scale, values[0])), g.B, g.C, RealAt(t.BexMode2Scale, values[1]))
  }

  /** Mode 3: the range from group A ramped from the initial value by `2^rate`. */
  function Mode3(s: seq<real>, g: GroupBins, values: seq<int>, t: CodecTables, exp2: real -> real): (r: seq<real>)
    requires |s| == BIN_SLOTS && Mirrors(g) && |values| == 4
  {
    Ramped(s, g.A, g.Total, RealAt(t.BexMode3Initial, values[0]), exp2(RealAt(t.BexMode3Rate, values[1])))
  }

  /** Mode 4: groups A, B and C scaled by three fixed gains times the table's multiplier. */
  function Mode4(s: seq<real>, g: GroupBins, values: seq<int>, t: CodecTables): (r: seq<real>)
    requires |s| == BIN_SLOTS && Mirrors(g) && |values| == 4
  {
    var mult := RealAt(t.BexMode4Multiplier, values[0]);
    Q.Gained(Q.Gained(Q.Gained(s, g.A, g.B, MODE4_GAIN_A * mult), g.B, g.C, MODE4_GAIN_B * mult), g.C, g.Total, MODE4_GAIN_C * mult)
  }

  /** The mode switch over the mirrored spectrum `s`; modes 2 to 4 and unknown modes keep the scales and the generator. */
  function ModeExtension(c: ChannelState, s: seq<real>, units: int, info: BexBandInfo, t: CodecTables,
                         exp2: real -> real): (r: Extension)
    requires ChannelSized(c) && |s| == BIN_SLOTS && BexLayout(t) && 13 <= units <= UNIT_SLOTS
    requires GroupsFit(units, info.GroupBUnit, info.GroupCUnit)
  {
    var g := BinsOf(units, info);
    if c.BexMode == 0 then Mode0(c, NoiseStart(c), s, units, info, t)
    else if c.BexMode == 1 then Mode1(c, NoiseStart(c), s, units, info, t)
    else if c.BexMode == 2 then Extension(Mode2(s, g, c.BexValues, t), c.BexScales, c.Rng)
    else if c.BexMode == 3 then Extension(Mode3(s, g, c.BexValues, t, exp2), c.BexScales, c.Rng)
    else if c.BexMode == 4 then Extension(Mode4(s, g, c.BexValues, t), c.BexScales, c.Rng)
    else Extension(s, c.BexScales, c.Rng)
  }

  /**
   * `applyBandExtensionChannel` on a channel of a block coding `units` units: the group-info
   * row, the mirrored spectrum, then the mode's gains.
   */
  function ExtendChannel(c: ChannelState, s: seq<real>, units: int, t: CodecTables, exp2: real -> real)
    : (r: Result<Extension, DecodeError>)
    requires ChannelSized(c) && |s| == BIN_SLOTS && BexLayout(t)
    ensures r.Success? <==> 13 <= units <= UNIT_SLOTS
    ensures r.Failure? ==> r.error == UndefinedAccess
  {
    var info :- GetBexBandInfo(units, t);
    InfoFits(units, t);
    Success(ModeExtension(c, FillHigh(s, BinsOf(units, info)), units, info, t, exp2))
  }

  /** The state and spectrum band extension leaves in a channel: the extension's, or the old ones when it failed. */
  predicate ExtensionApplied(e: Result<Extension, DecodeError>, before: ChannelState, spectrum: seq<real>,
                             after: ChannelState, afterSpectrum: seq<real>)
  {
    if e.Failure? then after == before && afterSpectrum == spectrum
    else afterSpectrum == e.value.Spectrum && after == before.(BexScales := e.value.Scales, Rng := e.value.Rng)
  }

  /** Band extension over `units` units took a channel from `before` and `spectrum` to `after` and `afterSpectrum`. */
  ghost predicate Extended(before: ChannelState, spectrum: seq<real>, after: ChannelState, afterSpectrum: seq<real>,
                           units: int, t: CodecTables, exp2: real -> real)
  {
    && ChannelSized(before) && |spectrum| == BIN_SLOTS && BexLayout(t)
    && ExtensionApplied(ExtendChannel(before, spectrum, units, t, exp2), before, spectrum, after, afterSpectrum)
  }

  // ---------------------------------------------------------------------------------------
  // Properties of the modes

  /** Mode 0 replaces the scale at `totalUnits - groupAUnit - 1` by the spectrum scale of group A's first unit. */
  lemma Mode0LastScale(c: ChannelState, start: RngState, s: seq<real>, units: int, info: BexBandInfo, t: CodecTables)
    requires ChannelSized(c) && |s| == BIN_SLOTS && BexLayout(t) && 13 <= units <= UNIT_SLOTS
    requires GroupsFit(units, info.GroupBUnit, info.GroupCUnit)
    requires TotalUnits(info.GroupCUnit) > units
    ensures var last := TotalUnits(info.GroupCUnit) - units - 1;
      && 0 <= last < |Mode0(c, start, s, units, info, t).Scales|
      && Mode0(c, start, s, units, info, t).Scales[last] == RealAt(t.SpectrumScale, c.ScaleFactors[units])
  {
  }

  /**
   * Unit scaling after bins [lo, hi) of the scaled units were overwritten: an overwritten bin of
   * unit u is its new value times that unit's scale, and every other bin is scaled as if nothing
   * had been written.
   */
  lemma ScaledOverwrite(s: seq<real>, written: seq<real>, scales: seq<real>, units: int, total: int,
                        lo: int, hi: int, v: real, u: int, k: int)
    requires |s| == BIN_SLOTS && |written| == BIN_SLOTS && 0 <= units && 0 <= total <= UNIT_SLOTS
    requires 0 <= u < UNIT_SLOTS && UnitStart(u) <= k < UnitStart(u + 1)
    requires lo < hi ==> UnitStart(units) <= lo && hi <= UnitStart(total)
    requires written[k] == (if lo <= k < hi then v else s[k])
    ensures lo <= k < hi ==> UnitsScaled(written, scales, units, total)[k] == Times(v, RealAt(scales, u - units))
    ensures !(lo <= k < hi) ==> UnitsScaled(written, scales, units, total)[k] == UnitsScaled(s, scales, units, total)[k]
  {
    UnitLayout(u);
    UnitOfBin(k, u);
    if lo <= k < hi {
      UnitWithin(units, total, k);
    }
  }

  /** The product of a bin and its gain, named so that a bin's value can be stated without a product of unknowns. */
  function Times(x: real, gain: real): real
  {
    x * gain
  }

  /**
   * A noise fill inside the scaled units, then the unit scaling: a filled bin of unit u is its
   * noise value times u's scale, and every other bin is scaled as if no noise had been drawn.
   */
  lemma NoiseScaledBins(s: seq<real>, start: RngState, scales: seq<real>, units: int, total: int,
                        index: int, count: int, u: int, k: int)
    requires |s| == BIN_SLOTS && 0 <= units && 0 <= total <= UNIT_SLOTS
    requires 0 <= u < UNIT_SLOTS && UnitStart(u) <= k < UnitStart(u + 1)
    requires 0 <= index && index + Passes(count) <= BIN_SLOTS
    requires 0 < count ==> UnitStart(units) <= index && index + count <= UnitStart(total)
    ensures var r := NoiseScaled(s, start, scales, units, total, index, count).Spectrum;
      && (index <= k < index + count ==> r[k] == Times(NoiseBin(start, index, k), RealAt(scales, u - units)))
      && (!(index <= k < index + count) ==> r[k] == UnitsScaled(s, scales, units, total)[k])
      && (!(UnitStart(units) <= k < UnitStart(total)) ==> r[k] == s[k])
  {
    var noised := Noised(s, start, index, count);
    UnitLayout(u);
    NoisedBins(s, start, index, count, k);
    if index <= k < index + count {
      ScaledOverwrite(s, noised, scales, units, total, index, index + count, NoiseBin(start, index, k), u, k);
    } else {
      ScaledOverwrite(s, noised, scales, units, total, index, index + count, 0.0, u, k);
    }
  }

  /** A bin between the starts of units `lo` and `hi` lies in a unit between them. */
  lemma UnitWithin(lo: int, hi: int, k: int)
    requires 0 <= lo && hi <= UNIT_SLOTS && 0 <= k < BIN_SLOTS && UnitStart(lo) <= k < UnitStart(hi)
    ensures lo <= UnitOf(k) < hi
  {
    UnitOfBin(k, 0);
    var u := UnitOf(k);
    if u < lo {
      UnitStartMonotone(u + 1, lo);
    } else if u >= hi {
      UnitStartMonotone(hi, u);
    }
  }

  /**
   * Mode 0 puts noise in the last unit of the extended range only: a bin of that unit is a noise
   * value times the unit's scale, and every other bin is the mirrored bin, scaled as its unit is.
   */
  lemma Mode0NoiseInLastUnit(c: ChannelState, start: RngState, s: seq<real>, units: int, info: BexBandInfo, t: CodecTables, u: int, k: int)
    requires ChannelSized(c) && |s| == BIN_SLOTS && BexLayout(t) && 13 <= units <= UNIT_SLOTS
    requires GroupsFit(units, info.GroupBUnit, info.GroupCUnit) && units < TotalUnits(info.GroupCUnit)
    requires 0 <= u < UNIT_SLOTS && UnitStart(u) <= k < UnitStart(u + 1)
    ensures var total := TotalUnits(info.GroupCUnit);
      var e := Mode0(c, start, s, units, info, t);
      && (u == total - 1 ==> e.Spectrum[k] == Times(NoiseBin(start, UnitStart(u), k), RealAt(e.Scales, u - units)))
      && (u != total - 1 ==> e.Spectrum[k] == UnitsScaled(s, e.Scales, units, total)[k])
  {
    hide Mode0BandScales, UnitsScaled, Noised;
    var total := TotalUnits(info.GroupCUnit);
    var scales := SetScale(Mode0BandScales(c.BexScales, info.BandCount, c.BexValues, t),
      total - units - 1, RealAt(t.SpectrumScale, c.ScaleFactors[units]));
    UnitLayout(total - 1);
    UnitStartMonotone(units, total - 1);
    var index, count := UnitStart(total - 1), UnitSize(total - 1);
    assert Mode0(c, start, s, units, info, t) == NoiseScaled(s, start, scales, units, total, index, count);
    NoiseScaledBins(s, start, scales, units, total, index, count, u, k);
    if u != total - 1 && index <= k < index + count {
      UnitOfBin(k, u);
      UnitOfBin(k, total - 1);
    }
  }

  /** Mode 1 fills the whole extended range with noise, from the range's first bin on. */
  lemma Mode1NoiseInRange(c: ChannelState, start: RngState, s: seq<real>, units: int, info: BexBandInfo, t: CodecTables, u: int, k: int)
    requires ChannelSized(c) && |s| == BIN_SLOTS && 13 <= units <= UNIT_SLOTS
    requires GroupsFit(units, info.GroupBUnit, info.GroupCUnit)
    requires 0 <= u < UNIT_SLOTS && UnitStart(u) <= k < UnitStart(u + 1)
    ensures var g := BinsOf(units, info);
      var e := Mode1(c, start, s, units, info, t);
      && (g.A <= k < g.Total ==> e.Spectrum[k] == Times(NoiseBin(start, g.A, k), RealAt(e.Scales, u - units)))
      && (!(g.A <= k < g.Total) ==> e.Spectrum[k] == s[k])
  {
    hide Mode1Scales, UnitsScaled, Noised;
    var total := TotalUnits(info.GroupCUnit);
    var g := BinsOf(units, info);
    var scales := Mode1Scales(c.BexScales, c.ScaleFactors, units, total, t);
    UnitStartMonotone(units, UNIT_SLOTS);
    assert Mode1(c, start, s, units, info, t) == NoiseScaled(s, start, scales, units, total, g.A, g.Total - g.A);
    NoiseScaledBins(s, start, scales, units, total, g.A, g.Total - g.A, u, k);
  }

  /** Mode 1's scale list holds, at u - groupAUnit, the spectrum scale of each unit u of the range. */
  lemma Mode1Scaled(c: ChannelState, start: RngState, s: seq<real>, units: int, info: BexBandInfo, t: CodecTables, u: int)
    requires ChannelSized(c) && |s| == BIN_SLOTS && 13 <= units <= UNIT_SLOTS
    requires GroupsFit(units, info.GroupBUnit, info.GroupCUnit) && units <= u < TotalUnits(info.GroupCUnit)
    ensures Mode1(c, start, s, units, info, t).Scales[u - units] == RealAt(t.SpectrumScale, c.ScaleFactors[u])
  {
    Mode1ScalesAt(c.BexScales, c.ScaleFactors, units, TotalUnits(info.GroupCUnit), t);
  }

  /** Mode 2 scales group A and group B and changes no bin outside [groupABin, groupCBin). */
  lemma Mode2Bins(s: seq<real>, g: GroupBins, values: seq<int>, t: CodecTables, k: int)
    requires |s| == BIN_SLOTS && Mirrors(g) && |values| == 4 && g.A <= g.B <= g.C && 0 <= k < BIN_SLOTS
    ensures g.A <= k < g.B ==> Mode2(s, g, values, t)[k] == s[k] * RealAt(t.BexMode2Scale, values[0])
    ensures g.B <= k < g.C ==> Mode2(s, g, values, t)[k] == s[k] * RealAt(t.BexMode2Scale, values[1])
    ensures !(g.A <= k < g.C) ==> Mode2(s, g, values, t)[k] == s[k]
  {
  }

  /** Mode 3 multiplies bin groupABin + n of the range by `initial * rate^(n+1)`, and changes no other bin. */
  lemma Mode3Bins(s: seq<real>, g: GroupBins, values: seq<int>, t: CodecTables, exp2: real -> real, n: int)
    requires |s| == BIN_SLOTS && Mirrors(g) && |values| == 4 && 0 <= n
    ensures var initial := RealAt(t.BexMode3Initial, values[0]);
      var rate := exp2(RealAt(t.BexMode3Rate, values[1]));
      && (g.A + n < g.Total ==> Mode3(s, g, values, t, exp2)[g.A + n] == s[g.A + n] * (initial * Power(rate, n + 1)))
      && (forall k :: 0 <= k < BIN_SLOTS && !(g.A <= k < g.Total) ==> Mode3(s, g, values, t, exp2)[k] == s[k])
  {
  }

  /** Mode 4 scales groups A, B and C by the three gains times the multiplier, and changes no other bin. */
  lemma Mode4Bins(s: seq<real>, g: GroupBins, values: seq<int>, t: CodecTables, k: int)
    requires |s| == BIN_SLOTS && Mirrors(g) && |values| == 4 && g.A <= g.B <= g.C <= g.Total && 0 <= k < BIN_SLOTS
    ensures var mult := RealAt(t.BexMode4Multiplier, values[0]);
      && (g.A <= k < g.B ==> Mode4(s, g, values, t)[k] == s[k] * (MODE4_GAIN_A * mult))
      && (g.B <= k < g.C ==> Mode4(s, g, values, t)[k] == s[k] * (MODE4_GAIN_B * mult))
      && (g.C <= k < g.Total ==> Mode4(s, g, values, t)[k] == s[k] * (MODE4_GAIN_C * mult))
      && (!(g.A <= k < g.Total) ==> Mode4(s, g, values, t)[k] == s[k])
  {
  }

  /** The channel's generator is kept after a noise mode: a later fill continues its stream rather than reseeding. */
  lemma NoiseModesKeepGenerator(c: ChannelState, s: seq<real>, units: int, info: BexBandInfo, t: CodecTables,
                                exp2: real -> real)
    requires ChannelSized(c) && |s| == BIN_SLOTS && BexLayout(t) && 13 <= units <= UNIT_SLOTS
    requires GroupsFit(units, info.GroupBUnit, info.GroupCUnit)
    ensures var e := ModeExtension(c, s, units, info, t, exp2);
      && (c.BexMode == 0 || c.BexMode == 1 ==> e.Rng.Some? && exists n: nat :: e.Rng.value == After(NoiseStart(c), n))
      && (c.BexMode != 0 && c.BexMode != 1 ==> e.Rng == c.Rng && e.Scales == c.BexScales)
  {
    hide Mode0BandScales, Mode1Scales, NoiseScaled, Mode2, Mode3, Mode4;
    if c.BexMode == 0 {
      UnitLayout(TotalUnits(info.GroupCUnit) - 1);
      var n := Passes(UnitSize(TotalUnits(info.GroupCUnit) - 1));
      assert ModeExtension(c, s, units, info, t, exp2).Rng.value == After(NoiseStart(c), n);
    } else if c.BexMode == 1 {
      var g := BinsOf(units, info);
      var n := Passes(g.Total - g.A);
      assert ModeExtension(c, s, units, info, t, exp2).Rng.value == After(NoiseStart(c), n);
    }
  }

  // ---------------------------------------------------------------------------------------
  // The mode methods

  /** A valid channel has its buffers at their sizes. */
  lemma ValidSized(channel: Channel)
    requires channel.Valid()
    ensures ChannelSized(channel.State()) && channel.Spectra.Length == BIN_SLOTS
  {
  }

  /**
   * The tail the two noise modes share: the new scale list stored, the noise fill, then the unit
   * scaling over units [units, total).
   */
  method FillAndScale(channel: Channel, scales: seq<real>, units: int, total: int, index: int, count: int)
    requires channel.Valid() && |scales| >= 6 && 0 <= units && 0 <= total <= UNIT_SLOTS
    requires 0 <= index && index + Passes(count) <= BIN_SLOTS
    modifies channel, channel.Spectra
    ensures channel.Valid()
    ensures var e := NoiseScaled(old(channel.Spectra[..]), NoiseStart(old(channel.State())), scales, units, total, index, count);
      channel.Spectra[..] == e.Spectrum && channel.State() == old(channel.State()).(BexScales := e.Scales, Rng := e.Rng)
  {
    channel.StoreBexScales(scales);
    AddNoiseToSpectrum(channel, index, count);
    ScaleBexQuantUnits(channel.Spectra, scales, units, total);
  }

  /** The mode-0 branch of `applyBandExtensionChannel`, on the mirrored spectrum. */
  method ExtendMode0(channel: Channel, units: int, info: BexBandInfo, t: CodecTables)
    requires channel.Valid() && BexLayout(t) && 13 <= units <= UNIT_SLOTS
    requires GroupsFit(units, info.GroupBUnit, info.GroupCUnit)
    modifies channel, channel.Spectra
    ensures channel.Valid()
    ensures var e := Mode0(old(channel.State()), NoiseStart(old(channel.State())), old(channel.Spectra[..]), units, info, t);
      channel.Spectra[..] == e.Spectrum && channel.State() == old(channel.State()).(BexScales := e.Scales, Rng := e.Rng)
  {
    var total := TotalUnits(info.GroupCUnit);
    var scales := SetScale(Mode0BandScales(channel.BexScales, info.BandCount, channel.BexValues, t),
      total - units - 1, RealAt(t.SpectrumScale, channel.ScaleFactors[units]));
    UnitLayout(total - 1);
    FillAndScale(channel, scales, units, total, UnitStart(total - 1), UnitSize(total - 1));
  }

  /** The mode-1 branch of `applyBandExtensionChannel`, on the mirrored spectrum. */
  method ExtendMode1(channel: Channel, units: int, info: BexBandInfo, t: CodecTables)
    requires channel.Valid() && 13 <= units <= UNIT_SLOTS
    requires GroupsFit(units, info.GroupBUnit, info.GroupCUnit)
    modifies channel, channel.Spectra
    ensures channel.Valid()
    ensures var e := Mode1(old(channel.State()), NoiseStart(old(channel.State())), old(channel.Spectra[..]), units, info, t);
      channel.Spectra[..] == e.Spectrum && channel.State() == old(channel.State()).(BexScales := e.Scales, Rng := e.Rng)
  {
    var total := TotalUnits(info.GroupCUnit);
    var scales := FillMode1Scales(channel.BexScales, channel.ScaleFactors, units, total, t);
    assert |scales| >= |channel.BexScales| by {
      if units <= total {
        Mode1ScalesAt(channel.BexScales, channel.ScaleFactors, units, total, t);
      }
    }
    var g := BinsOf(units, info);
    UnitStartMonotone(units, UNIT_SLOTS);
    FillAndScale(channel, scales, units, total, g.A, g.Total - g.A);
  }

  /** The mode-2 branch: the two gains read first, then the two loops. */
  method ExtendMode2(spectra: array<real>, g: GroupBins, values: seq<int>, t: CodecTables)
    requires spectra.Length == BIN_SLOTS && Mirrors(g) && |values| == 4
    modifies spectra
    ensures spectra[..] == Mode2(old(spectra[..]), g, values, t)
  {
    var groupAScale := RealAt(t.BexMode2Scale, values[0]);
    var groupBScale := RealAt(t.BexMode2Scale, values[1]);
    Q.ScaleBins(spectra, g.A, g.B, groupAScale);
    Q.ScaleBins(spectra, g.B, g.C, groupBScale);
  }

  /** The mode-3 branch: the rate `2^BexMode3Rate[values[1]]`, with `exp2` standing for `Math.pow(2, _)`. */
  method ExtendMode3(spectra: array<real>, g: GroupBins, values: seq<int>, t: CodecTables, exp2: real -> real)
    requires spectra.Length == BIN_SLOTS && Mirrors(g) && |values| == 4
    modifies spectra
    ensures spectra[..] == Mode3(old(spectra[..]), g, values, t, exp2)
  {
    var rate := exp2(RealAt(t.BexMode3Rate, values[1]));
    var scale := RealAt(t.BexMode3Initial, values[0]);
    RampBins(spectra, g.A, g.Total, scale, rate);
  }

  /** The mode-4 branch: three gains from one multiplier, then the three loops. */
  method ExtendMode4(spectra: array<real>, g: GroupBins, values: seq<int>, t: CodecTables)
    requires spectra.Length == BIN_SLOTS && Mirrors(g) && |values| == 4
    modifies spectra
    ensures spectra[..] == Mode4(old(spectra[..]), g, values, t)
  {
    var mult := RealAt(t.BexMode4Multiplier, values[0]);
    Q.ScaleBins(spectra, g.A, g.B, MODE4_GAIN_A * mult);
    Q.ScaleBins(spectra, g.B, g.C, MODE4_GAIN_B * mult);
    Q.ScaleBins(spectra, g.C, g.Total, MODE4_GAIN_C * mult);
  }

  /** The gain-mode methods that change only the spectrum. */
  method ExtendSpectrumOnly(channel: Channel, g: GroupBins, t: CodecTables, exp2: real -> real)
    requires channel.Valid() && Mirrors(g) && 2 <= channel.BexMode
    modifies channel.Spectra
    ensures var c := channel.State();
      channel.Spectra[..] == (if c.BexMode == 2 then Mode2(old(channel.Spectra[..]), g, c.BexValues, t)
        else if c.BexMode == 3 then Mode3(old(channel.Spectra[..]), g, c.BexValues, t, exp2)
        else if c.BexMode == 4 then Mode4(old(channel.Spectra[..]), g, c.BexValues, t)
        else old(channel.Spectra[..]))
  {
    var mode := channel.BexMode;
    if mode == 2 {
      ExtendMode2(channel.Spectra, g, channel.BexValues, t);
    } else if mode == 3 {
      ExtendMode3(channel.Spectra, g, channel.BexValues, t, exp2);
    } else if mode == 4 {
      ExtendMode4(channel.Spectra, g, channel.BexValues, t);
    }
  }

  /** The `switch (channel.BexMode)` of `applyBandExtensionChannel`, on the mirrored spectrum. */
  method ApplyMode(channel: Channel, units: int, info: BexBandInfo, t: CodecTables, exp2: real -> real)
    requires channel.Valid() && BexLayout(t) && 13 <= units <= UNIT_SLOTS
    requires GroupsFit(units, info.GroupBUnit, info.GroupCUnit)
    modifies channel, channel.Spectra
    ensures channel.Valid()
    ensures var e := ModeExtension(old(channel.State()), old(channel.Spectra[..]), units, info, t, exp2);
      channel.Spectra[..] == e.Spectrum && channel.State() == old(channel.State()).(BexScales := e.Scales, Rng := e.Rng)
  {
    var mode := channel.BexMode;
    if mode == 0 {
      ExtendMode0(channel, units, info, t);
    } else if mode == 1 {
      ExtendMode1(channel, units, info, t);
    } else if mode < 0 {
      // No case of the switch matches.
    } else {
      ExtendSpectrumOnly(channel, BinsOf(units, info), t, exp2);
    }
  }

  /** The body of `applyBandExtensionChannel` once the group-info row is read: the mirrors, then the mode. */
  method ExtendGroups(channel: Channel, units: int, info: BexBandInfo, t: CodecTables, exp2: real -> real)
    requires channel.Valid() && BexLayout(t) && 13 <= units <= UNIT_SLOTS
    requires GroupsFit(units, info.GroupBUnit, info.GroupCUnit)
    modifies channel, channel.Spectra
    ensures channel.Valid()
    ensures var e := ModeExtension(old(channel.State()), FillHigh(old(channel.Spectra[..]), BinsOf(units, info)), units, info, t, exp2);
      channel.Spectra[..] == e.Spectrum && channel.State() == old(channel.State()).(BexScales := e.Scales, Rng := e.Rng)
  {
    FillHighFrequencies(channel.Spectra, BinsOf(units, info));
    ApplyMode(channel, units, info, t, exp2);
  }

  /**
   * `applyBandExtensionChannel`: for a block of `units` units the channel ends as `ExtendChannel`
   * says; a unit count without a group-info row fails before anything is written.
   */
  method ApplyBandExtensionChannel(channel: Channel, units: int, t: CodecTables, exp2: real -> real)
    returns (r: Outcome<DecodeError>)
    requires channel.Valid() && BexLayout(t)
    modifies channel, channel.Spectra
    ensures channel.Valid()
    ensures var e := ExtendChannel(old(channel.State()), old(channel.Spectra[..]), units, t, exp2);
      && (r.Fail? <==> e.Failure?) && (r.Fail? ==> r.error == e.error)
      && ExtensionApplied(e, old(channel.State()), old(channel.Spectra[..]), channel.State(), channel.Spectra[..])
  {
    var info := GetBexBandInfo(units, t);
    if info.Failure? {
      return Fail(info.error);
    }
    InfoFits(units, t);
    ExtendGroups(channel, units, info.value, t, exp2);
    return Pass;
  }

  /**
   * One pass of the channel loop of `applyBandExtension`: channel i is extended, and every other
   * channel keeps its state and its spectrum.
   */
  method ExtendChannelAt(channels: seq<Channel>, i: nat, ghost before: ChannelState, ghost spectrum: seq<real>,
                         units: int, t: CodecTables, exp2: real -> real)
    returns (r: Outcome<DecodeError>)
    requires forall j :: 0 <= j < |channels| ==> channels[j].Valid()
    requires |channels| <= 2 && (|channels| == 2 ==> channels[0] != channels[1] && channels[0].Spectra != channels[1].Spectra)
    requires BexLayout(t) && i < |channels|
    requires channels[i].State() == before && channels[i].Spectra[..] == spectrum
    modifies channels[i], channels[i].Spectra
    ensures forall j :: 0 <= j < |channels| ==> channels[j].Valid()
    ensures r.Fail? <==> !(13 <= units <= UNIT_SLOTS)
    ensures r.Fail? ==> r.error == UndefinedAccess
    ensures Extended(before, spectrum, channels[i].State(), channels[i].Spectra[..], units, t, exp2)
    ensures |channels| == 2 ==> unchanged(channels[1 - i], channels[1 - i].Spectra)
  {
    r := ApplyBandExtensionChannel(channels[i], units, t, exp2);
  }

  /** A failed extension leaves the channel as it was. */
  lemma ExtendedFails(before: ChannelState, spectrum: seq<real>, units: int, t: CodecTables, exp2: real -> real)
    requires ChannelSized(before) && |spectrum| == BIN_SLOTS && BexLayout(t)
    requires !(13 <= units <= UNIT_SLOTS)
    ensures Extended(before, spectrum, before, spectrum, units, t, exp2)
  {
  }

  /** The channel loop of `applyBandExtension`; the first failure ends it, and it can only come from the first channel. */
  method ExtendChannels(channels: seq<Channel>, units: int, t: CodecTables, exp2: real -> real)
    returns (r: Outcome<DecodeError>)
    requires forall j :: 0 <= j < |channels| ==> channels[j].Valid()
    requires 1 <= |channels| <= 2 && (|channels| == 2 ==> channels[0] != channels[1] && channels[0].Spectra != channels[1].Spectra)
    requires BexLayout(t)
    modifies channels
    modifies SpectrumBuffers(channels)
    ensures forall j :: 0 <= j < |channels| ==> channels[j].Valid()
    ensures r.Fail? <==> !(13 <= units <= UNIT_SLOTS)
    ensures r.Fail? ==> r.error == UndefinedAccess
    ensures Extended(old(channels[0].State()), old(channels[0].Spectra[..]), channels[0].State(), channels[0].Spectra[..], units, t, exp2)
    ensures |channels| == 2 ==>
      Extended(old(channels[1].State()), old(channels[1].Spectra[..]), channels[1].State(), channels[1].Spectra[..], units, t, exp2)
  {
    hide Extended, ExtendChannel;
    ghost var s0, p0 := channels[0].State(), channels[0].Spectra[..];
    ghost var last := |channels| - 1;
    ghost var s1, p1 := channels[last].State(), channels[last].Spectra[..];
    for i := 0 to |channels|
      invariant forall j :: 0 <= j < |channels| ==> channels[j].Valid()
      invariant i > 0 ==> 13 <= units <= UNIT_SLOTS
      invariant i == 0 ==> channels[0].State() == s0 && channels[0].Spectra[..] == p0
      invariant 1 <= i ==> Extended(s0, p0, channels[0].State(), channels[0].Spectra[..], units, t, exp2)
      invariant last == 1 && i <= 1 ==> channels[1].State() == s1 && channels[1].Spectra[..] == p1
      invariant last == 1 && i == 2 ==> Extended(s1, p1, channels[1].State(), channels[1].Spectra[..], units, t, exp2)
    {
      ghost var before, spectrum := if i == 0 then s0 else s1, if i == 0 then p0 else p1;
      r := ExtendChannelAt(channels, i, before, spectrum, units, t, exp2);
      if r.Fail? {
        if last == 1 {
          // The second channel has no group-info row either, so it stays as it was.
          ExtendedFails(s1, p1, units, t, exp2);
        }
        return;
      }
    }
    return Pass;
  }

  /** The channels of a decodable block: valid, at most two, and two distinct objects with distinct spectra. */
  lemma ReadyChannelsDistinct(block: Block)
    requires ChannelsReady(block)
    ensures forall j :: 0 <= j < |block.Channels| ==> block.Channels[j].Valid()
    ensures 1 <= |block.Channels| <= 2
    ensures |block.Channels| == 2 ==> block.Channels[0] != block.Channels[1] && block.Channels[0].Spectra != block.Channels[1].Spectra
  {
    Q.SeparateSpectra(block);
    if |block.Channels| == 2 {
      DistinctChannels(block);
    }
  }

  /** Band extension runs on the block and throws: the unit count has no row in the band table. */
  predicate ExtensionFails(b: BlockState)
  {
    b.BandExtensionEnabled && b.HasExtensionData && !(13 <= b.QuantizationUnitCount <= UNIT_SLOTS)
  }

  /**
   * What band extension leaves in a channel of block b: with extension on and data present,
   * `Extended` from the state and spectrum before; otherwise the state and spectrum as they were.
   */
  ghost predicate ExtensionStage(b: BlockState, before: ChannelState, spectrum: seq<real>,
                                 after: ChannelState, afterSpectrum: seq<real>, t: CodecTables, exp2: real -> real)
  {
    if b.BandExtensionEnabled && b.HasExtensionData then
      Extended(before, spectrum, after, afterSpectrum, b.QuantizationUnitCount, t, exp2)
    else
      after == before && afterSpectrum == spectrum
  }

  /**
   * `applyBandExtension`: nothing happens unless the block enables band extension and carries
   * its data; then every channel is extended once over the block's unit count, each as
   * `ExtendChannel` says, and the call fails exactly when that count has no group-info row.
   */
  method ApplyBandExtension(block: Block, t: CodecTables, exp2: real -> real) returns (r: Outcome<DecodeError>)
    requires ChannelsReady(block) && BexLayout(t)
    modifies block.Channels
    modifies SpectrumBuffers(block.Channels)
    ensures ChannelsReady(block)
    ensures r.Fail? <==> ExtensionFails(block.State())
    ensures r.Fail? ==> r.error == UndefinedAccess
    ensures ExtensionStage(block.State(), old(block.Channels[0].State()), old(block.Channels[0].Spectra[..]),
      block.Channels[0].State(), block.Channels[0].Spectra[..], t, exp2)
    ensures |block.Channels| == 2 ==>
      ExtensionStage(block.State(), old(block.Channels[1].State()), old(block.Channels[1].Spectra[..]),
        block.Channels[1].State(), block.Channels[1].Spectra[..], t, exp2)
  {
    ReadyChannelsDistinct(block);
    if !block.BandExtensionEnabled || !block.HasExtensionData {
      return Pass;
    }
    r := ExtendChannels(block.Channels, block.QuantizationUnitCount, t, exp2);
  }

  // ---------------------------------------------------------------------------------------
  // The generator as the shipped code obtains it

  /**
   * The generator `addNoiseToSpectrum` obtains in the code as shipped. `Atrac9Rng` is declared
   * in a file that exports nothing and that no module imports, and the bundled build leaves the
   * class out, so `new Atrac9Rng(seed)` throws a ReferenceError whenever the channel has no
   * generator yet; a channel's existing generator would be reused.
   */
  function ShippedNoiseStart(c: ChannelState): (r: Result<RngState, DecodeError>)
    requires |c.ScaleFactors| == SCALE_FACTOR_SLOTS
    ensures r.Success? <==> c.Rng.Some?
    ensures r.Success? ==> r.value == NoiseStart(c)
    ensures r.Failure? ==> r.error == NotDefined("Atrac9Rng")
  {
    if c.Rng.Some? then Success(c.Rng.value) else Failure(NotDefined("Atrac9Rng"))
  }

  /**
   * Every channel starts without a generator, and only a noise fill that succeeds gives it one,
   * so in the shipped code the first noise fill of every channel throws: the gain modes 0 and 1
   * never complete. The intended generator, NoiseStart, seeds a fresh channel with 543.
   */
  lemma ShippedFirstNoiseFillThrows()
    ensures ShippedNoiseStart(InitialChannel()) == Failure(NotDefined("Atrac9Rng"))
    ensures NoiseStart(InitialChannel()) == Seeded(543)
  {
  }
}
