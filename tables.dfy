/**
 * The decoder's constant integer tables and the three selectors that depend on the
 * sample-rate class.
 */
module Tables {
  import opened ChannelConfigs

  const SUBBAND_COUNT: nat := 256
  const QUANT_UNIT_COUNT: nat := 30

  function MaxHuffPrecision(highSampleRate: bool): nat
  {
    if highSampleRate then 1 else 7
  }

  function MinBandCount(highSampleRate: bool): nat
  {
    if highSampleRate then 1 else 3
  }

  function MaxExtensionBand(highSampleRate: bool): nat
  {
    if highSampleRate then 16 else 18
  }

  const SampleRates: seq<int> := [
    11025, 12000, 16000, 22050, 24000, 32000, 44100, 48000,
    44100, 48000, 64000, 88200, 96000, 128000, 176400, 192000]

  const SamplingRateIndexToFrameSamplesPower: seq<int> := [6, 6, 7, 7, 7, 8, 8, 8, 6, 6, 7, 7, 7, 8, 8, 8]

  const MaxBandCount: seq<int> := [8, 8, 12, 12, 12, 18, 18, 18, 8, 8, 12, 12, 12, 16, 16, 16]

  const BandToQuantUnitCount: seq<int> := [0, 4, 8, 10, 12, 13, 14, 15, 16, 18, 20, 21, 22, 23, 24, 25, 26, 28, 30]

  const QuantUnitToCoeffCount: seq<int> := [
    2, 2, 2, 2, 2, 2, 2, 2, 4, 4, 4, 4, 8, 8, 8,
    8, 8, 8, 8, 8, 16, 16, 16, 16, 16, 16, 16, 16, 16, 16]

  const QuantUnitToCoeffIndex: seq<int> := [
    0, 2, 4, 6, 8, 10, 12, 14, 16, 20, 24, 28, 32, 40, 48, 56,
    64, 72, 80, 88, 96, 112, 128, 144, 160, 176, 192, 208, 224, 240, 256]

  const QuantUnitToCodebookIndex: seq<int> := [
    0, 0, 0, 0, 0, 0, 0, 0, 1, 1, 1, 1, 2, 2, 2,
    2, 2, 2, 2, 2, 3, 3, 3, 3, 3, 3, 3, 3, 3, 3]

  const ChannelConfigTable: seq<ChannelConfig> := [
    NewChannelConfig([MONO]),
    NewChannelConfig([MONO, MONO]),
    NewChannelConfig([STEREO]),
    NewChannelConfig([STEREO, MONO, LFE, STEREO]),
    NewChannelConfig([STEREO, MONO, LFE, STEREO, STEREO]),
    NewChannelConfig([STEREO, STEREO])]

  /** The first coefficient of each quantization unit is the sum of the sizes of the units before it. */
  lemma CoeffIndexIsPrefixSum()
    ensures |QuantUnitToCoeffIndex| == QUANT_UNIT_COUNT + 1 && |QuantUnitToCoeffCount| == QUANT_UNIT_COUNT
    ensures QuantUnitToCoeffIndex[0] == 0 && QuantUnitToCoeffIndex[QUANT_UNIT_COUNT] == SUBBAND_COUNT
    ensures forall i :: 0 <= i < QUANT_UNIT_COUNT ==>
      QuantUnitToCoeffIndex[i + 1] == QuantUnitToCoeffIndex[i] + QuantUnitToCoeffCount[i]
  {
  }

  /** Unit i covers the bins from its first coefficient up to the next unit's, all within the 256 bins. */
  lemma UnitBins(i: nat)
    requires i < QUANT_UNIT_COUNT
    ensures 0 <= QuantUnitToCoeffIndex[i]
    ensures QuantUnitToCoeffIndex[i] + QuantUnitToCoeffCount[i] == QuantUnitToCoeffIndex[i + 1] <= SUBBAND_COUNT
    ensures QuantUnitToCoeffCount[i] in {2, 4, 8, 16}
  {
    CoeffIndexIsPrefixSum();
    CoeffIndexInRange();
    UnitSizes();
  }

  /** A later unit never starts before an earlier one. */
  lemma {:induction false} CoeffIndexMonotone(a: nat, b: nat)
    requires a <= b <= QUANT_UNIT_COUNT
    ensures QuantUnitToCoeffIndex[a] <= QuantUnitToCoeffIndex[b]
    decreases b
  {
    if a < b {
      CoeffIndexMonotone(a, b - 1);
      UnitBins(b - 1);
    }
  }

  lemma CoeffIndexInRange()
    ensures forall i :: 0 <= i <= QUANT_UNIT_COUNT ==> 0 <= QuantUnitToCoeffIndex[i] <= SUBBAND_COUNT
  {
  }

  lemma UnitSizes()
    ensures forall i :: 0 <= i < QUANT_UNIT_COUNT ==> QuantUnitToCoeffCount[i] in {2, 4, 8, 16}
  {
  }

  /**
   * The unit layout in closed form: units 0 to 7 hold 2 bins, 8 to 11 hold 4, 12 to 19 hold 8
   * and 20 to 29 hold 16. UnitLayoutIsTable shows these are the three tables above.
   */
  function UnitSize(i: int): int
  {
    if i < 8 then 2 else if i < 12 then 4 else if i < 20 then 8 else 16
  }

  /** The first bin of unit i, and for i = 30 the end of the last unit. */
  function UnitStart(i: int): int
  {
    if i <= 8 then 2 * i else if i <= 12 then 4 * i - 16 else if i <= 20 then 8 * i - 64 else 16 * i - 224
  }

  /** The codebook index of unit i: the base-2 logarithm of its size, less one. */
  function UnitBook(i: int): int
  {
    if i < 8 then 0 else if i < 12 then 1 else if i < 20 then 2 else 3
  }

  lemma UnitLayoutIsTable()
    ensures forall i :: 0 <= i <= QUANT_UNIT_COUNT ==> UnitStart(i) == QuantUnitToCoeffIndex[i]
    ensures forall i :: 0 <= i < QUANT_UNIT_COUNT ==> UnitSize(i) == QuantUnitToCoeffCount[i]
    ensures forall i :: 0 <= i < QUANT_UNIT_COUNT ==> UnitBook(i) == QuantUnitToCodebookIndex[i]
  {
  }

  /** Each unit's bins follow the previous unit's, all within the 256 bins, in one of four sizes. */
  lemma UnitLayout(i: int)
    requires 0 <= i < QUANT_UNIT_COUNT
    ensures 0 <= UnitStart(i) && UnitStart(i) + UnitSize(i) == UnitStart(i + 1) <= SUBBAND_COUNT
    ensures UnitSize(i) in {2, 4, 8, 16} && 0 <= UnitBook(i) <= 3
  {
  }

  /** A later unit never starts before an earlier one. */
  lemma UnitStartMonotone(a: int, b: int)
    requires 0 <= a <= b <= QUANT_UNIT_COUNT
    ensures 0 <= UnitStart(a) <= UnitStart(b) <= SUBBAND_COUNT
  {
  }

  /** The unit bin k belongs to, in the closed form of the layout. */
  function UnitOf(k: int): int
  {
    if k < 16 then k / 2 else if k < 32 then (k + 16) / 4 else if k < 96 then (k + 64) / 8 else (k + 224) / 16
  }

  /** Every bin lies in the unit UnitOf names, and in no other. */
  lemma UnitOfBin(k: int, u: int)
    requires 0 <= k < SUBBAND_COUNT
    ensures 0 <= UnitOf(k) < QUANT_UNIT_COUNT && UnitStart(UnitOf(k)) <= k < UnitStart(UnitOf(k) + 1)
    ensures 0 <= u < QUANT_UNIT_COUNT && UnitStart(u) <= k < UnitStart(u + 1) ==> UnitOf(k) == u
  {
  }

  /** UnitOfBin for every bin at once. */
  lemma UnitOfBins()
    ensures forall k :: 0 <= k < SUBBAND_COUNT ==>
      0 <= UnitOf(k) < QUANT_UNIT_COUNT && UnitStart(UnitOf(k)) <= k < UnitStart(UnitOf(k) + 1)
  {
    forall k | 0 <= k < SUBBAND_COUNT
      ensures 0 <= UnitOf(k) < QUANT_UNIT_COUNT && UnitStart(UnitOf(k)) <= k < UnitStart(UnitOf(k) + 1)
    {
      UnitOfBin(k, 0);
    }
  }

  /** Nineteen band limits, strictly increasing from 0 to all thirty units. */
  lemma BandToQuantUnitCountIncreasing()
    ensures |BandToQuantUnitCount| == 19 && BandToQuantUnitCount[0] == 0 && BandToQuantUnitCount[18] == QUANT_UNIT_COUNT
    ensures forall i, j :: 0 <= i < j < 19 ==> BandToQuantUnitCount[i] < BandToQuantUnitCount[j]
  {
  }

  /** Every band count bound is a valid index into BandToQuantUnitCount. */
  lemma MaxBandCountInRange()
    ensures |MaxBandCount| == 16 && forall i :: 0 <= i < 16 ==> 0 <= MaxBandCount[i] <= 18
  {
  }

  /** For each sample rate the band range is not empty and lies below the extension band limit. */
  lemma BandLimits(sampleRateIndex: nat)
    requires sampleRateIndex < 16
    ensures MinBandCount(sampleRateIndex > 7) <= MaxBandCount[sampleRateIndex] <= MaxExtensionBand(sampleRateIndex > 7)
  {
  }

  /** A unit's codebook index is the base-2 logarithm of its size, less one. */
  lemma CodebookIndexMatchesCount(i: nat)
    requires i < QUANT_UNIT_COUNT
    ensures 0 <= QuantUnitToCodebookIndex[i] <= 3
    ensures QuantUnitToCodebookIndex[i] == 0 <==> QuantUnitToCoeffCount[i] == 2
    ensures QuantUnitToCodebookIndex[i] == 1 <==> QuantUnitToCoeffCount[i] == 4
    ensures QuantUnitToCodebookIndex[i] == 2 <==> QuantUnitToCoeffCount[i] == 8
    ensures QuantUnitToCodebookIndex[i] == 3 <==> QuantUnitToCoeffCount[i] == 16
  {
  }

  /** Sixteen sample-rate indices, each with a frame of 64, 128 or 256 samples. */
  lemma SampleRateTables()
    ensures |SampleRates| == 16 && |SamplingRateIndexToFrameSamplesPower| == 16
    ensures forall i :: 0 <= i < 16 ==> 6 <= SamplingRateIndexToFrameSamplesPower[i] <= 8
  {
  }

  /** Six channel configurations carrying 1, 2, 2, 6, 8 and 4 channels. */
  lemma ChannelConfigCounts()
    ensures |ChannelConfigTable| == 6
    ensures ChannelConfigTable[0].ChannelCount == 1 && ChannelConfigTable[1].ChannelCount == 2
    ensures ChannelConfigTable[2].ChannelCount == 2 && ChannelConfigTable[3].ChannelCount == 6
    ensures ChannelConfigTable[4].ChannelCount == 8 && ChannelConfigTable[5].ChannelCount == 4
    ensures forall c :: 0 <= c < 6 ==> ChannelConfigTable[c].BlockCount == |ChannelConfigTable[c].BlockTypes|
    ensures forall c, b :: 0 <= c < 6 && 0 <= b < |ChannelConfigTable[c].BlockTypes| ==> IsBlockType(ChannelConfigTable[c].BlockTypes[b])
  {
    TotalsOfPrefixes([MONO, MONO]);
    TotalsOfPrefixes([STEREO, MONO, LFE, STEREO]);
    var five := [STEREO, MONO, LFE, STEREO, STEREO];
    TotalsOfPrefixes(five);
    assert five[..4] == [STEREO, MONO, LFE, STEREO] && five[..5] == five;
    TotalsOfPrefixes([STEREO, STEREO]);
  }

  /** The totals of the prefixes of a list of up to five blocks, spelled out one block at a time. */
  lemma TotalsOfPrefixes(s: seq<int>)
    requires 1 <= |s| <= 5
    ensures TotalChannels(s[..1]) == BlockTypeToChannelCount(s[0])
    ensures forall n :: 1 <= n < |s| ==> TotalChannels(s[..n + 1]) == TotalChannels(s[..n]) + BlockTypeToChannelCount(s[n])
  {
    assert s[..1][..0] == [];
    forall n | 1 <= n < |s|
      ensures TotalChannels(s[..n + 1]) == TotalChannels(s[..n]) + BlockTypeToChannelCount(s[n])
    {
      assert s[..n + 1][..n] == s[..n];
    }
  }
}
