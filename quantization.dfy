/**
 * Dequantization and scaling of a block's spectra: each coded unit's integer coefficients become
 * real values through the step sizes of its precisions, and then each unit of the block is
 * multiplied by the scale its scale factor selects. The step-size and scale tables are `real`
 * tables taken as loaded.
 */
module Quantization {
  import opened Wrappers
  import opened Tables
  import opened RuntimeTables
  import opened DecodeState
  import opened BlockUnpacking

  /**
   * The units a loop up to `count` covers: none when the count is unassigned or negative, and
   * at most the thirty the tables describe (a pass for a unit past them finds no bins).
   */
  function CoveredUnits(count: Option<int>): (n: nat)
    ensures n <= UNIT_SLOTS
    ensures count.Some? && 0 <= count.value <= UNIT_SLOTS ==> n == count.value
    ensures count.None? || count.value <= 0 ==> n == 0
  {
    if count.None? || count.value <= 0 then 0
    else if count.value > UNIT_SLOTS then UNIT_SLOTS
    else count.value
  }

  /** Bin k of unit u dequantized: the coarse value at the unit's step size plus the fine value at its fine step size. */
  function BinValue(c: ChannelState, t: CodecTables, u: nat, k: nat): real
    requires ChannelSized(c) && u < UNIT_SLOTS && k < BIN_SLOTS
  {
    c.QuantizedSpectra[k] as real * RealAt(t.QuantizerStepSize, c.Precisions[u])
      + c.QuantizedSpectraFine[k] as real * RealAt(t.QuantizerFineStepSize, c.PrecisionsFine[u])
  }

  /** The spectrum `dequantizeSpectra` leaves in a channel: each bin of a coded unit dequantized, every other bin zero. */
  function Dequantized(c: ChannelState, t: CodecTables): (r: seq<real>)
    requires ChannelSized(c)
    ensures |r| == BIN_SLOTS
  {
    UnitOfBins();
    var n := CoveredUnits(c.CodedQuantUnits);
    seq(BIN_SLOTS, k requires 0 <= k < BIN_SLOTS => if k < UnitStart(n) then BinValue(c, t, UnitOf(k), k) else 0.0)
  }

  /**
   * Dequantization bin by bin: a bin of coded unit u holds that unit's dequantized value, and
   * every bin from the first uncoded unit on is zero.
   */
  lemma DequantizedBins(c: ChannelState, t: CodecTables, u: nat, k: nat)
    requires ChannelSized(c) && k < BIN_SLOTS
    ensures var n := CoveredUnits(c.CodedQuantUnits);
      && (u < n && UnitStart(u) <= k < UnitStart(u + 1) ==> Dequantized(c, t)[k] == BinValue(c, t, u, k))
      && (UnitStart(n) <= k ==> Dequantized(c, t)[k] == 0.0)
  {
    var n := CoveredUnits(c.CodedQuantUnits);
    if u < n && UnitStart(u) <= k < UnitStart(u + 1) {
      UnitOfBin(k, u);
      UnitStartMonotone(u + 1, n);
    }
  }

  /** A channel that codes no unit, mono channels among them, dequantizes to silence. */
  lemma NothingCodedIsSilent(c: ChannelState, t: CodecTables)
    requires ChannelSized(c) && (c.CodedQuantUnits.None? || c.CodedQuantUnits.value <= 0)
    ensures forall k :: 0 <= k < BIN_SLOTS ==> Dequantized(c, t)[k] == 0.0
  {
  }

  /** `dequantizeQuantUnit`: the bins of unit `band` take their dequantized values, and no other bin changes. */
  method DequantizeQuantUnit(channel: Channel, band: nat, t: CodecTables)
    requires channel.Valid() && band < UNIT_SLOTS
    modifies channel.Spectra
    ensures forall k :: 0 <= k < BIN_SLOTS ==>
      channel.Spectra[k] == (if UnitStart(band) <= k < UnitStart(band + 1) then BinValue(channel.State(), t, band, k) else old(channel.Spectra[k]))
  {
    UnitLayoutIsTable();
    UnitLayout(band);
    var subBandIndex := QuantUnitToCoeffIndex[band];
    var subBandCount := QuantUnitToCoeffCount[band];
    var stepSize := RealAt(t.QuantizerStepSize, channel.Precisions[band]);
    var stepSizeFine := RealAt(t.QuantizerFineStepSize, channel.PrecisionsFine[band]);
    ghost var c := channel.State();
    for sb := 0 to subBandCount
      invariant forall k :: 0 <= k < BIN_SLOTS ==>
        channel.Spectra[k] == (if subBandIndex <= k < subBandIndex + sb then BinValue(c, t, band, k) else old(channel.Spectra[k]))
    {
      var coarse := channel.QuantizedSpectra[subBandIndex + sb] as real * stepSize;
      var fine := channel.QuantizedSpectraFine[subBandIndex + sb] as real * stepSizeFine;
      channel.Spectra[subBandIndex + sb] := coarse + fine;
    }
  }

  /** One channel of `dequantizeSpectra`: the spectrum zero-filled, then every coded unit dequantized. */
  method DequantizeChannel(channel: Channel, t: CodecTables)
    requires channel.Valid()
    modifies channel.Spectra
    ensures channel.Spectra[..] == Dequantized(channel.State(), t)
  {
    UnitOfBins();
    var spectra := channel.Spectra;
    forall k | 0 <= k < spectra.Length {
      spectra[k] := 0.0;
    }
    var n := CoveredUnits(channel.CodedQuantUnits);
    for i := 0 to n
      invariant forall k :: 0 <= k < BIN_SLOTS ==>
        spectra[k] == if k < UnitStart(i) then BinValue(channel.State(), t, UnitOf(k), k) else 0.0
    {
      DequantizeQuantUnit(channel, i, t);
      forall k | UnitStart(i) <= k < UnitStart(i + 1)
        ensures UnitOf(k) == i
      {
        UnitOfBin(k, i);
      }
    }
    assert forall k :: 0 <= k < BIN_SLOTS ==> spectra[..][k] == Dequantized(channel.State(), t)[k];
  }

  /**
   * `dequantizeSpectra`: every channel of the block dequantized once, each from its own
   * coefficients and precisions.
   */
  method DequantizeSpectra(block: Block, t: CodecTables)
    requires ChannelsReady(block)
    modifies SpectrumBuffers(block.Channels)
    ensures forall i :: 0 <= i < |block.Channels| ==>
      block.Channels[i].Spectra[..] == Dequantized(block.Channels[i].State(), t)
  {
    SeparateSpectra(block);
    for i := 0 to |block.Channels|
      invariant forall j :: 0 <= j < i ==> block.Channels[j].Spectra[..] == Dequantized(block.Channels[j].State(), t)
    {
      DequantizeChannel(block.Channels[i], t);
    }
  }

  /** The channels of a decodable block write to separate spectrum buffers. */
  lemma SeparateSpectra(block: Block)
    requires ChannelsReady(block)
    ensures |block.Channels| == 2 ==> block.Channels[0].Spectra != block.Channels[1].Spectra
  {
    if |block.Channels| == 2 {
      assert block.Channels[0].Spectra in block.Channels[0].Repr && block.Channels[1].Spectra in block.Channels[1].Repr;
    }
  }

  /** The scale unit u of a channel applies: the spectrum-scale entry its scale factor selects. */
  function UnitScale(scaleFactors: seq<int>, t: CodecTables, u: nat): real
    requires u < |scaleFactors|
  {
    RealAt(t.SpectrumScale, scaleFactors[u])
  }

  /** The spectrum `scaleSpectrumChannel` leaves: the bins of the first `units` units scaled by their unit's scale. */
  function Scaled(spectrum: seq<real>, scaleFactors: seq<int>, units: int, t: CodecTables): (r: seq<real>)
    requires |spectrum| == BIN_SLOTS && |scaleFactors| == SCALE_FACTOR_SLOTS
    ensures |r| == BIN_SLOTS
  {
    UnitOfBins();
    var n := CoveredUnits(Some(units));
    seq(BIN_SLOTS, k requires 0 <= k < BIN_SLOTS =>
      if k < UnitStart(n) then spectrum[k] * UnitScale(scaleFactors, t, UnitOf(k)) else spectrum[k])
  }

  /** Scaling bin by bin: a bin of a unit below the count is multiplied by that unit's scale, and the bins above keep their values. */
  lemma ScaledBins(spectrum: seq<real>, scaleFactors: seq<int>, units: int, t: CodecTables, u: nat, k: nat)
    requires |spectrum| == BIN_SLOTS && |scaleFactors| == SCALE_FACTOR_SLOTS && k < BIN_SLOTS
    ensures var n := CoveredUnits(Some(units));
      && (u < n && UnitStart(u) <= k < UnitStart(u + 1) ==>
            Scaled(spectrum, scaleFactors, units, t)[k] == spectrum[k] * UnitScale(scaleFactors, t, u))
      && (UnitStart(n) <= k ==> Scaled(spectrum, scaleFactors, units, t)[k] == spectrum[k])
  {
    var n := CoveredUnits(Some(units));
    if u < n && UnitStart(u) <= k < UnitStart(u + 1) {
      UnitOfBin(k, u);
      UnitStartMonotone(u + 1, n);
    }
  }

  /** A spectrum that agrees with `Scaled` bin by bin is the scaled spectrum. */
  lemma ScaledFromBins(before: seq<real>, after: seq<real>, scaleFactors: seq<int>, units: int, t: CodecTables)
    requires |before| == BIN_SLOTS && |after| == BIN_SLOTS && |scaleFactors| == SCALE_FACTOR_SLOTS
    requires forall k :: 0 <= k < UnitStart(CoveredUnits(Some(units))) ==>
      UnitOf(k) < UNIT_SLOTS && after[k] == before[k] * UnitScale(scaleFactors, t, UnitOf(k))
    requires forall k :: UnitStart(CoveredUnits(Some(units))) <= k < BIN_SLOTS ==> after[k] == before[k]
    ensures after == Scaled(before, scaleFactors, units, t)
  {
    assert forall k :: 0 <= k < BIN_SLOTS ==> after[k] == Scaled(before, scaleFactors, units, t)[k];
  }

  /** The spectrum with bins `lo` to `hi` multiplied by `gain`. */
  function Gained(spectrum: seq<real>, lo: int, hi: int, gain: real): (r: seq<real>)
    requires |spectrum| == BIN_SLOTS && 0 <= lo && hi <= BIN_SLOTS
    ensures |r| == BIN_SLOTS
  {
    seq(BIN_SLOTS, k requires 0 <= k < BIN_SLOTS => if lo <= k < hi then spectrum[k] * gain else spectrum[k])
  }

  /** A loop `for (i = lo; i < hi; i++) spectra[i] *= gain`: an empty range when `hi <= lo`. */
  method ScaleBins(spectra: array<real>, lo: int, hi: int, gain: real)
    requires spectra.Length == BIN_SLOTS && 0 <= lo && hi <= BIN_SLOTS
    modifies spectra
    ensures spectra[..] == Gained(old(spectra[..]), lo, hi, gain)
  {
    ghost var before := spectra[..];
    var i := lo;
    while i < hi
      invariant lo <= i && (i <= hi || i == lo)
      invariant forall k :: 0 <= k < BIN_SLOTS ==> spectra[k] == (if lo <= k < i then before[k] * gain else before[k])
    {
      spectra[i] := spectra[i] * gain;
      i := i + 1;
    }
    assert forall k :: 0 <= k < BIN_SLOTS ==> spectra[..][k] == Gained(before, lo, hi, gain)[k];
  }

  /** The two fields scaling reads: the spectrum and the scale factors, at their sizes. */
  predicate Scalable(channel: Channel)
    reads channel
  {
    channel.Spectra.Length == BIN_SLOTS && |channel.ScaleFactors| == SCALE_FACTOR_SLOTS
  }

  /** The inner loop of `scaleSpectrumChannel` for unit `band`: its bins multiplied by the unit's scale, no other bin changed. */
  method ScaleQuantUnit(channel: Channel, band: nat, t: CodecTables)
    requires Scalable(channel) && band < UNIT_SLOTS
    modifies channel.Spectra
    ensures forall k :: 0 <= k < BIN_SLOTS ==>
      channel.Spectra[k] == (if UnitStart(band) <= k < UnitStart(band + 1)
        then old(channel.Spectra[k]) * UnitScale(channel.ScaleFactors, t, band) else old(channel.Spectra[k]))
  {
    UnitLayout(band);
    ScaleBins(channel.Spectra, UnitStart(band), UnitStart(band + 1), RealAt(t.SpectrumScale, channel.ScaleFactors[band]));
  }

  /** `scaleSpectrumChannel`: the channel's spectrum scaled over the block's `units` coded units. */
  method ScaleSpectrumChannel(channel: Channel, units: int, t: CodecTables)
    requires Scalable(channel)
    modifies channel.Spectra
    ensures channel.Spectra[..] == Scaled(old(channel.Spectra[..]), channel.ScaleFactors, units, t)
  {
    UnitOfBins();
    var spectra := channel.Spectra;
    ghost var before := spectra[..];
    ghost var scaleFactors := channel.ScaleFactors;
    var n := CoveredUnits(Some(units));
    for i := 0 to n
      invariant forall k :: 0 <= k < BIN_SLOTS ==>
        spectra[k] == (if k < UnitStart(i) then before[k] * UnitScale(scaleFactors, t, UnitOf(k)) else before[k])
    {
      ScaleQuantUnit(channel, i, t);
      forall k | UnitStart(i) <= k < UnitStart(i + 1)
        ensures UnitOf(k) == i
      {
        UnitOfBin(k, i);
      }
    }
    ScaledFromBins(before, spectra[..], scaleFactors, units, t);
  }

  /** `scaleSpectrum`: every channel of the block scaled once over the block's coded units, by its own scale factors. */
  method ScaleSpectrum(block: Block, t: CodecTables)
    requires ChannelsReady(block)
    modifies SpectrumBuffers(block.Channels)
    ensures forall i :: 0 <= i < |block.Channels| ==>
      block.Channels[i].Spectra[..] == Scaled(old(block.Channels[i].Spectra[..]), block.Channels[i].ScaleFactors, block.QuantizationUnitCount, t)
  {
    ReadyChannelsScalable(block);
    ScaleChannels(block.Channels, block.QuantizationUnitCount, t);
  }

  /** The channels of a decodable block can be scaled, each in its own spectrum buffer. */
  lemma ReadyChannelsScalable(block: Block)
    requires ChannelsReady(block)
    ensures forall j :: 0 <= j < |block.Channels| ==> Scalable(block.Channels[j])
    ensures |block.Channels| <= 2 && (|block.Channels| == 2 ==> block.Channels[0].Spectra != block.Channels[1].Spectra)
  {
    SeparateSpectra(block);
  }

  /** The channel loop of `scaleSpectrum`. */
  method ScaleChannels(channels: seq<Channel>, units: int, t: CodecTables)
    requires forall j :: 0 <= j < |channels| ==> Scalable(channels[j])
    requires |channels| <= 2 && (|channels| == 2 ==> channels[0].Spectra != channels[1].Spectra)
    modifies SpectrumBuffers(channels)
    ensures forall i :: 0 <= i < |channels| ==>
      (Scalable(channels[i]) &&
       channels[i].Spectra[..] == Scaled(old(channels[i].Spectra[..]), channels[i].ScaleFactors, units, t))
  {
    for i := 0 to |channels|
      invariant forall j :: 0 <= j < |channels| ==> Scalable(channels[j])
      invariant forall j :: 0 <= j < i ==>
        (Scalable(channels[j]) &&
         channels[j].Spectra[..] == Scaled(old(channels[j].Spectra[..]), channels[j].ScaleFactors, units, t))
      invariant forall j :: i <= j < |channels| ==> channels[j].Spectra[..] == old(channels[j].Spectra[..])
    {
      ScaleSpectrumChannel(channels[i], units, t);
    }
  }
}
