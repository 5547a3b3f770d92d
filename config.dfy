/**
 * The four-byte ATRAC9 configuration descriptor and the frame and superframe geometry
 * derived from it.
 */
module Config {
  import opened JsInt
  import opened Wrappers
  import opened ChannelConfigs
  import opened Tables
  import opened BitStream
  import opened BitReading

  datatype ConfigError =
    | WrongLength        // the descriptor is missing or not four bytes long
    | InvalidConfigData  // the header byte is not 0xFE or the validation bit is set
    | NoChannelConfig    // channel configuration index 6 or 7: there is no table entry to read

  /**
   * The six fields of the descriptor, read most significant bit first: an 8-bit header, a 4-bit
   * sample-rate index, a 3-bit channel configuration index, a validation bit, the 11-bit frame
   * size less one and a 2-bit superframe index. Bits 29 to 31 are never read.
   */
  datatype Fields = Fields(header: nat, sampleRateIndex: nat, channelConfigIndex: nat,
                           validationBit: nat, frameBytesField: nat, superframeIndex: nat)

  predicate FieldsInRange(f: Fields)
  {
    f.header < 0x100 && f.sampleRateIndex < 16 && f.channelConfigIndex < 8 && f.validationBit < 2 &&
    f.frameBytesField < 0x800 && f.superframeIndex < 4
  }

  /** The fields as the bit reader's successive reads of 8, 4, 3, 1, 11 and 2 bits take them from the bytes. */
  function ReadFields(data: seq<byte>): (f: Fields)
    requires |data| == 4
    ensures FieldsInRange(f)
  {
    Fields(data[0], data[1] / 16, (data[1] / 2) % 8, data[1] % 2, (data[2] as int) * 8 + data[3] / 32, (data[3] / 8) % 4)
  }

  datatype Atrac9Config = Atrac9Config(
    ConfigData: seq<byte>,
    SampleRateIndex: nat,
    ChannelConfigIndex: nat,
    FrameBytes: nat,
    SuperframeIndex: nat,
    FramesPerSuperframe: nat,
    SuperframeBytes: nat,
    ChannelConfig: ChannelConfig,
    ChannelCount: nat,
    SampleRate: int,
    HighSampleRate: bool,
    FrameSamplesPower: nat,
    FrameSamples: nat,
    SuperframeSamples: nat)

  /** The constructor of the configuration: validation first, then the derived geometry. */
  function ParseConfig(configData: Option<seq<byte>>): (r: Result<Atrac9Config, ConfigError>)
    ensures r == Failure(WrongLength) <==> configData.None? || |configData.value| != 4
    ensures r == Failure(InvalidConfigData) <==>
      configData.Some? && |configData.value| == 4 && (configData.value[0] != 0xFE || configData.value[1] % 2 != 0)
    ensures r == Failure(NoChannelConfig) <==>
      configData.Some? && |configData.value| == 4 && configData.value[0] == 0xFE && configData.value[1] % 2 == 0 &&
      ReadFields(configData.value).channelConfigIndex >= 6
    ensures r.Success? ==> ValidConfig(r.value) && r.value.ConfigData == configData.value
  {
    if configData.None? || |configData.value| != 4 then Failure(WrongLength)
    else
      var data := configData.value;
      var f := ReadFields(data);
      if f.header != 0xFE || f.validationBit != 0 then Failure(InvalidConfigData)
      else if f.channelConfigIndex >= |ChannelConfigTable| then Failure(NoChannelConfig)
      else Success(BuildConfig(data))
  }

  /** The geometry derived from a descriptor that passed the checks. */
  function BuildConfig(data: seq<byte>): (c: Atrac9Config)
    requires |data| == 4 && data[0] == 0xFE && data[1] % 2 == 0 && ReadFields(data).channelConfigIndex < 6
    ensures ValidConfig(c) && c.ConfigData == data
  {
    var f := ReadFields(data);
    var sampleRateIndex, superframeIndex := f.sampleRateIndex, f.superframeIndex;
    var frameBytes := f.frameBytesField + 1;
    var framesPerSuperframe := Shl(1, superframeIndex);
    var superframeBytes := Shl(frameBytes, superframeIndex);
    ChannelConfigCounts();
    var channelConfig := ChannelConfigTable[f.channelConfigIndex];
    SampleRateTables();
    var power := SamplingRateIndexToFrameSamplesPower[sampleRateIndex];
    var frameSamples := Shl(1, power);
    ShlOne(superframeIndex);
    ShlOne(power);
    ShiftedSize(frameBytes, superframeIndex);
    FrameSampleCounts(power);
    var superframeSamples := frameSamples * framesPerSuperframe;
    SuperframeSampleCount(frameSamples, framesPerSuperframe, superframeSamples);
    Atrac9Config(data, sampleRateIndex, f.channelConfigIndex, frameBytes, superframeIndex,
      framesPerSuperframe, superframeBytes, channelConfig, channelConfig.ChannelCount,
      SampleRates[sampleRateIndex], sampleRateIndex > 7, power, frameSamples, superframeSamples)
  }

  lemma SuperframeSampleCount(frameSamples: int, framesPerSuperframe: int, superframeSamples: int)
    requires frameSamples in {64, 128, 256} && framesPerSuperframe in {1, 2, 4, 8}
    requires superframeSamples == frameSamples * framesPerSuperframe
    ensures 64 <= superframeSamples <= 2048
  {
  }

  lemma FrameSampleCounts(power: int)
    requires 6 <= power <= 8
    ensures Pow2(power) in {64, 128, 256}
  {
    assert power == 6 || power == 7 || power == 8;
  }

  /**
   * The geometry a parsed configuration always has: frames of 1 to 2048 bytes and of 64, 128 or
   * 256 samples, superframes of 1, 2, 4 or 8 frames, and the channel layout of its table entry.
   */
  ghost predicate ValidConfig(c: Atrac9Config)
  {
    |c.ConfigData| == 4 && c.ConfigData[0] == 0xFE && c.ConfigData[1] % 2 == 0 &&
    var f := ReadFields(c.ConfigData);
    c.SampleRateIndex == f.sampleRateIndex && c.ChannelConfigIndex == f.channelConfigIndex &&
    c.SuperframeIndex == f.superframeIndex && c.FrameBytes == f.frameBytesField + 1 &&
    c.SampleRateIndex < 16 && c.ChannelConfigIndex < 6 && c.SuperframeIndex < 4 &&
    1 <= c.FrameBytes <= 2048 &&
    c.FramesPerSuperframe == Pow2(c.SuperframeIndex) && c.FramesPerSuperframe in {1, 2, 4, 8} &&
    c.SuperframeBytes == c.FrameBytes * c.FramesPerSuperframe &&
    c.ChannelConfig == ChannelConfigTable[c.ChannelConfigIndex] &&
    c.ChannelCount == c.ChannelConfig.ChannelCount && c.ChannelCount >= 1 &&
    c.ChannelConfig.BlockCount == |c.ChannelConfig.BlockTypes| &&
    (forall b :: 0 <= b < c.ChannelConfig.BlockCount ==> IsBlockType(c.ChannelConfig.BlockTypes[b])) &&
    c.SampleRate == SampleRates[c.SampleRateIndex] &&
    (c.HighSampleRate <==> c.SampleRateIndex > 7) &&
    c.FrameSamplesPower == SamplingRateIndexToFrameSamplesPower[c.SampleRateIndex] &&
    6 <= c.FrameSamplesPower <= 8 &&
    c.FrameSamples == Pow2(c.FrameSamplesPower) && c.FrameSamples in {64, 128, 256} &&
    c.SuperframeSamples == c.FrameSamples * c.FramesPerSuperframe
  }

  /** The part of the geometry the decode state is built from: the frame size and the block layout. */
  ghost predicate FrameLayout(c: Atrac9Config)
  {
    && 6 <= c.FrameSamplesPower <= 8 && c.FrameSamples == Pow2(c.FrameSamplesPower)
    && c.ChannelConfig.BlockCount == |c.ChannelConfig.BlockTypes| >= 1
    && (forall b :: 0 <= b < |c.ChannelConfig.BlockTypes| ==> IsBlockType(c.ChannelConfig.BlockTypes[b]))
    && c.ChannelCount == TotalChannels(c.ChannelConfig.BlockTypes)
  }

  lemma ValidLayout(c: Atrac9Config)
    requires ValidConfig(c)
    ensures FrameLayout(c)
  {
    ChannelConfigCounts();
  }

  /** `frameBytes << superframeIndex` does not overflow: at most 2048 * 8 bytes. */
  lemma ShiftedSize(frameBytes: nat, superframeIndex: nat)
    requires 1 <= frameBytes <= 2048 && superframeIndex < 4
    ensures Shl(frameBytes, superframeIndex) == frameBytes * Pow2(superframeIndex)
    ensures Pow2(superframeIndex) in {1, 2, 4, 8}
    ensures 1 <= Shl(frameBytes, superframeIndex) <= 2048 * 8
  {
    var p := Pow2(superframeIndex);
    var product := frameBytes * p;
    ScaledFrame(frameBytes, superframeIndex, p, product);
    ShlNonNegative(frameBytes, superframeIndex);
  }

  lemma ScaledFrame(frameBytes: nat, superframeIndex: nat, p: nat, product: int)
    requires 1 <= frameBytes <= 2048 && superframeIndex < 4 && p == Pow2(superframeIndex)
    requires product == frameBytes * p
    ensures p in {1, 2, 4, 8} && 1 <= product <= 2048 * 8 && product < TWO_31
  {
    assert superframeIndex == 0 || superframeIndex == 1 || superframeIndex == 2 || superframeIndex == 3;
  }

  // ---------------------------------------------------------------------------
  // The fields against the bit reader.

  /**
   * Each field is what the bit reader returns for its read: the reads of 8, 4, 3, 1, 11 and 2 bits
   * at bit positions 0, 8, 12, 15, 16 and 27 of the descriptor's bit string.
   */
  lemma FieldsAreReads(data: seq<byte>)
    requires |data| == 4
    ensures var s, f := StreamBits(data), ReadFields(data);
      f.header == PeekValue(s, 0, 8) && f.sampleRateIndex == PeekValue(s, 8, 4) &&
      f.channelConfigIndex == PeekValue(s, 12, 3) && f.validationBit == PeekValue(s, 15, 1) &&
      f.frameBytesField == PeekValue(s, 16, 11) && f.superframeIndex == PeekValue(s, 27, 2)
  {
    var s := StreamBits(data);
    PeekBits(s, 0, 8);
    PeekBits(s, 8, 4);
    PeekBits(s, 12, 3);
    PeekBits(s, 15, 1);
    PeekBits(s, 16, 11);
    PeekBits(s, 27, 2);
    StreamByte(data, 0);
    StreamByte(data, 1);
    StreamByte(data, 2);
    StreamByte(data, 3);
    HeaderField(s, data[0]);
    SecondByteFields(s, data[1]);
    FrameFields(s, data[2], data[3]);
  }

  lemma HeaderField(s: seq<bool>, d0: byte)
    requires ByteIn(s, 0, d0)
    ensures Value(s, 0, 8) == d0
  {
    WholeByte(s, 0, d0);
  }

  /** The sample-rate index, channel configuration index and validation bit of the second byte. */
  lemma SecondByteFields(s: seq<bool>, d1: byte)
    requires ByteIn(s, 1, d1)
    ensures Value(s, 8, 4) == d1 / 16 && Value(s, 12, 3) == (d1 / 2) % 8 && Value(s, 15, 1) == d1 % 2
  {
    FieldOfByte(s, 1, d1, 0, 4, 8, 0x100, 16, 8);
    FieldOfByte(s, 1, d1, 4, 3, 12, 16, 2, 8);
    FieldOfByte(s, 1, d1, 7, 1, 15, 2, 1, 8);
    SecondByteDigits(d1);
  }

  /** The frame size field across the third and fourth bytes, and the superframe index. */
  lemma FrameFields(s: seq<bool>, d2: byte, d3: byte)
    requires ByteIn(s, 2, d2) && ByteIn(s, 3, d3)
    ensures Value(s, 16, 11) == (d2 as int) * 8 + d3 / 32 && Value(s, 27, 2) == (d3 / 8) % 4
  {
    WholeByte(s, 2, d2);
    FieldOfByte(s, 3, d3, 0, 3, 24, 0x100, 32, 8);
    FieldOfByte(s, 3, d3, 3, 2, 27, 32, 8, 8);
    ValueSplit(s, 16, 8, 3);
    Pow2Of3();
    FourthByteDigits(d3);
  }

  /** Bits o .. o + n - 1 of byte k: the byte cut to its low 8 - o bits, shifted down by 8 - o - n. */
  lemma FieldOfByte(s: seq<bool>, k: nat, d: byte, o: nat, n: nat, pos: nat, low: nat, high: nat, w: nat)
    requires ByteIn(s, k, d) && w == 8 && o + n <= w && pos == 8 * k + o
    requires low == Pow2(w - o) && high == Pow2(w - o - n)
    ensures Value(s, pos, n) == (d % low) / high
  {
    var base := 8 * k;
    ValueWindow(s, base, w, o, n);
    WholeByteAt(s, k, base, w, d);
  }

  lemma Pow2Of3()
    ensures Pow2(3) == 8
  {
  }

  lemma SecondByteDigits(d1: byte)
    ensures (d1 % 0x100) / 16 == d1 / 16 && (d1 % 16) / 2 == (d1 / 2) % 8 && (d1 % 2) / 1 == d1 % 2
  {
    DivModUnique(d1 / 2, 8, d1 / 16, (d1 % 16) / 2);
  }

  lemma FourthByteDigits(d3: byte)
    ensures (d3 % 0x100) / 32 == d3 / 32 && (d3 % 32) / 8 == (d3 / 8) % 4
  {
    DivModUnique(d3 / 8, 4, d3 / 32, (d3 % 32) / 8);
  }

  // ---------------------------------------------------------------------------
  // Round trip.

  /** The four bytes that carry the fields, with bits 29 to 31 zero. */
  function EncodeFields(f: Fields): (data: seq<byte>)
    requires FieldsInRange(f)
    ensures |data| == 4
  {
    [f.header, f.sampleRateIndex * 16 + f.channelConfigIndex * 2 + f.validationBit,
     f.frameBytesField / 8, (f.frameBytesField % 8) * 32 + f.superframeIndex * 8]
  }

  /** Reading encoded fields gives them back. */
  lemma ReadEncoded(f: Fields)
    requires FieldsInRange(f)
    ensures ReadFields(EncodeFields(f)) == f
  {
    var data := EncodeFields(f);
    var c := f.channelConfigIndex * 2 + f.validationBit;
    DivModUnique(data[1], 16, f.sampleRateIndex, c);
    DivModUnique(data[1], 2, f.sampleRateIndex * 8 + f.channelConfigIndex, f.validationBit);
    DivModUnique(data[1] / 2, 8, f.sampleRateIndex, f.channelConfigIndex);
    var fine := f.frameBytesField % 8;
    DivModUnique(data[3], 32, fine, f.superframeIndex * 8);
    DivModUnique(data[3], 8, fine * 4 + f.superframeIndex, 0);
    DivModUnique(data[3] / 8, 4, fine, f.superframeIndex);
    DivModUnique(f.frameBytesField, 8, f.frameBytesField / 8, fine);
  }

  /** Encoding the fields read from a descriptor whose bits 29 to 31 are zero gives the descriptor back. */
  lemma EncodeRead(data: seq<byte>)
    requires |data| == 4 && data[3] % 8 == 0
    ensures EncodeFields(ReadFields(data)) == data
  {
    var f := ReadFields(data);
    var e := EncodeFields(f);
    DivModUnique(data[1], 16, data[1] / 16, data[1] % 16);
    DivModUnique(data[1] % 16, 2, (data[1] / 2) % 8, data[1] % 2) by {
      SecondByteDigits(data[1]);
    }
    assert e[1] == data[1];
    DivModUnique(f.frameBytesField, 8, data[2], data[3] / 32);
    DivModUnique(data[3], 32, data[3] / 32, data[3] % 32);
    DivModUnique(data[3] % 32, 8, (data[3] / 8) % 4, 0) by {
      FourthByteDigits(data[3]);
      DivModUnique(data[3], 8, data[3] / 8, 0);
    }
    assert e[2] == data[2] && e[3] == data[3];
  }

  /**
   * A descriptor built from a valid header, cleared validation bit, sample-rate index, channel
   * configuration index, frame size and superframe index parses back to exactly those values,
   * and keeps the bytes it was given.
   */
  lemma ParseEncoded(sampleRateIndex: nat, channelConfigIndex: nat, frameBytes: nat, superframeIndex: nat)
    requires sampleRateIndex < 16 && channelConfigIndex < 6 && 1 <= frameBytes <= 2048 && superframeIndex < 4
    ensures var data := EncodeFields(Fields(0xFE, sampleRateIndex, channelConfigIndex, 0, frameBytes - 1, superframeIndex));
      var r := ParseConfig(Some(data));
      r.Success? && r.value.ConfigData == data && r.value.SampleRateIndex == sampleRateIndex &&
      r.value.ChannelConfigIndex == channelConfigIndex && r.value.FrameBytes == frameBytes &&
      r.value.SuperframeIndex == superframeIndex
  {
    var f := Fields(0xFE, sampleRateIndex, channelConfigIndex, 0, frameBytes - 1, superframeIndex);
    ReadEncoded(f);
    ChannelConfigCounts();
  }
}
