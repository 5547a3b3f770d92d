/**
 * The block grammar. Each block starts with two flags; a standard block then carries its band
 * layout (unless it reuses the previous one), the gradient of its bit allocation, its stereo
 * signs and its band-extension header, and then per channel the scale factors, the coarse and
 * the fine spectral coefficients. An LFE block carries two units of fixed-width values. Every
 * block ends on a byte boundary.
 *
 * Each stage is specified by a function of the bit string and the old state that gives the new
 * state, where the reader stops and whether the stage throws; the stage's method updates the
 * block and channel objects in place and is proved to produce exactly that.
 */
module Unpacking {
  import opened JsInt
  import opened Wrappers
  import opened ChannelConfigs
  import Config
  import opened Tables
  import opened RuntimeTables
  import opened BitStream
  import opened BitReading
  import opened UnpackHuffman
  import opened DecodeState
  import BE = BandExtensionInfo
  import SF = ScaleFactorReading
  import BA = BitAllocation

  /** The decoder's invalid-data exception, raised without a message. */
  const INVALID: DecodeError := InvalidData("")

  /** A block-level stage: the block's new fields, where the reader stops, and whether it throws. */
  datatype BlockStep = BlockStep(Block: BlockState, Next: nat, Result: Outcome<DecodeError>)

  /** Every unit count a stage indexes the tables with lies within the thirty units. */
  predicate UnitCounts(s: BlockState)
  {
    && 0 <= s.QuantizationUnitCount <= UNIT_SLOTS && 0 <= s.ExtensionUnit <= UNIT_SLOTS
    && 0 <= s.QuantizationUnitsPrev <= UNIT_SLOTS
    && (s.StereoQuantizationUnit.Some? ==> 0 <= s.StereoQuantizationUnit.value <= UNIT_SLOTS)
  }

  /** `readBool`: one bit, true when it is set. */
  function Flag(bits: seq<bool>, pos: nat): bool
  {
    Read(Unsigned(1), bits, pos).Value == 1
  }

  method ReadFlag(reader: BitReader) returns (value: bool)
    requires reader.Valid()
    modifies reader
    ensures reader.Valid() && unchanged(reader`buffer, reader`bits)
    ensures value == Flag(reader.bits, old(reader.position)) && reader.position == old(reader.position) + 1
  {
    PeekBits(reader.bits, reader.position, 1);
    value := reader.ReadBool();
  }

  // ---------------------------------------------------------------------------------------------
  // Block header

  /**
   * `readBlockHeader`'s two checks: the first-in-superframe flag must agree with the frame
   * index, and only an LFE block may reuse band parameters in the first frame of a superframe.
   */
  function HeaderCheck(first: bool, reuse: bool, frameIndex: int, blockType: int): (r: Outcome<DecodeError>)
    ensures r.Pass? <==> (first <==> frameIndex == 0) && (first && reuse ==> blockType == LFE)
    ensures r.Fail? ==> r.error == INVALID
  {
    if first != (frameIndex == 0) then Fail(INVALID)
    else if frameIndex == 0 && reuse && blockType != LFE then Fail(INVALID)
    else Pass
  }

  /** The first bit is clear in the first frame of a superframe; the second asks to reuse the band layout. */
  method ReadBlockHeader(reader: BitReader, block: Block, frameIndex: int) returns (r: Outcome<DecodeError>)
    requires reader.Valid()
    modifies reader, block
    ensures reader.Valid() && unchanged(reader`buffer, reader`bits)
    ensures var p := old(reader.position);
      var first := !Flag(reader.bits, p);
      var reuse := Flag(reader.bits, p + 1);
      && reader.position == p + 2
      && block.State() == old(block.State()).(FirstInSuperframe := first, ReuseBandParams := reuse)
      && r == HeaderCheck(first, reuse, frameIndex, block.BlockType)
  {
    var firstInSuperframe := frameIndex == 0;
    var notFirst := ReadFlag(reader);
    var reuse := ReadFlag(reader);
    StoreHeader(block, !notFirst, reuse);
    if !notFirst != firstInSuperframe {
      return Fail(INVALID);
    }
    if firstInSuperframe && reuse && block.BlockType != LFE {
      return Fail(INVALID);
    }
    return Pass;
  }

  method StoreHeader(block: Block, first: bool, reuse: bool)
    modifies block
    ensures block.State() == old(block.State()).(FirstInSuperframe := first, ReuseBandParams := reuse)
  {
    block.FirstInSuperframe, block.ReuseBandParams := first, reuse;
  }

  // ---------------------------------------------------------------------------------------------
  // Band parameters

  /** A 4-bit band field plus the smallest band count of the sample-rate class. */
  function BandField(bits: seq<bool>, pos: nat, minBandCount: nat): (r: Decoded)
    requires minBandCount <= 3
    ensures minBandCount <= r.Value < |BandToQuantUnitCount| && r.Next == pos + 4
  {
    UnsignedField(bits, pos, 4);
    var d := Read(Unsigned(4), bits, pos);
    Decoded(d.Value + minBandCount, d.Next)
  }

  method ReadBandField(reader: BitReader, minBandCount: nat) returns (value: int)
    requires reader.Valid() && minBandCount <= 3
    modifies reader
    ensures reader.Valid() && unchanged(reader`buffer, reader`bits)
    ensures value == BandField(reader.bits, old(reader.position), minBandCount).Value
    ensures reader.position == BandField(reader.bits, old(reader.position), minBandCount).Next
  {
    var field := ReadField(reader, Unsigned(4));
    value := field + minBandCount;
  }

  /** The fields `readBandParams` assigns. */
  datatype BandLayout = BandLayout(BandCount: int, QuantizationUnitCount: int, StereoBand: int,
    StereoQuantizationUnit: Option<int>, BandExtensionEnabled: bool, ExtensionBand: int, ExtensionUnit: int)

  function LayoutOf(s: BlockState): BandLayout
  {
    BandLayout(s.BandCount, s.QuantizationUnitCount, s.StereoBand, s.StereoQuantizationUnit,
      s.BandExtensionEnabled, s.ExtensionBand, s.ExtensionUnit)
  }

  /** The block state with a new band layout and every other field kept. */
  function WithLayout(s: BlockState, l: BandLayout): (r: BlockState)
    ensures LayoutOf(r) == l
  {
    s.(BandCount := l.BandCount, QuantizationUnitCount := l.QuantizationUnitCount, StereoBand := l.StereoBand,
      StereoQuantizationUnit := l.StereoQuantizationUnit, BandExtensionEnabled := l.BandExtensionEnabled,
      ExtensionBand := l.ExtensionBand, ExtensionUnit := l.ExtensionUnit)
  }

  method StoreLayout(block: Block, l: BandLayout)
    modifies block
    ensures block.State() == WithLayout(old(block.State()), l)
  {
    StoreBandCount(block, l.BandCount, l.QuantizationUnitCount);
    StoreStereoBand(block, l.StereoBand, l.StereoQuantizationUnit);
    StoreExtensionBand(block, l.BandExtensionEnabled, l.ExtensionBand, l.ExtensionUnit);
  }

  method StoreBandCount(block: Block, bandCount: int, units: int)
    modifies block
    ensures block.State() == old(block.State()).(BandCount := bandCount, QuantizationUnitCount := units)
  {
    block.BandCount, block.QuantizationUnitCount := bandCount, units;
  }

  method StoreStereoBand(block: Block, band: int, unit: Option<int>)
    modifies block
    ensures block.State() == old(block.State()).(StereoBand := band, StereoQuantizationUnit := unit)
  {
    block.StereoBand, block.StereoQuantizationUnit := band, unit;
  }

  method StoreExtensionBand(block: Block, enabled: bool, band: int, unit: int)
    modifies block
    ensures block.State() == old(block.State()).(BandExtensionEnabled := enabled, ExtensionBand := band, ExtensionUnit := unit)
  {
    block.BandExtensionEnabled, block.ExtensionBand, block.ExtensionUnit := enabled, band, unit;
  }

  /**
   * The band layout `readBandParams` accepts: a band count the sample rate allows, a stereo
   * band no higher than it, and an extension band from it up to the class's limit; the unit
   * counts are the table's counts for those bands.
   */
  predicate BandsAccepted(l: BandLayout, blockType: int, config: Config.Atrac9Config)
    requires config.SampleRateIndex < 16
  {
    var minBandCount := MinBandCount(config.HighSampleRate);
    && minBandCount <= l.BandCount <= MaxBandCount[config.SampleRateIndex]
    && l.QuantizationUnitCount == BandToQuantUnitCount[l.BandCount]
    && StereoAccepted(l, blockType, minBandCount)
    && ExtensionAccepted(l, config.HighSampleRate)
  }

  /** The stereo band of a stereo block is read and lies at most at the band count; other blocks have none of their own. */
  predicate StereoAccepted(l: BandLayout, blockType: int, minBandCount: nat)
  {
    && l.StereoBand <= l.BandCount
    && (blockType == STEREO ==>
          && minBandCount <= l.StereoBand < |BandToQuantUnitCount|
          && l.StereoQuantizationUnit == Some(BandToQuantUnitCount[l.StereoBand]))
    && (blockType != STEREO ==> l.StereoBand == l.BandCount)
  }

  /** An enabled extension band lies from the band count up to the limit; a disabled one is the band count. */
  predicate ExtensionAccepted(l: BandLayout, highSampleRate: bool)
  {
    if l.BandExtensionEnabled then
      && l.BandCount <= l.ExtensionBand <= MaxExtensionBand(highSampleRate) && 0 <= l.ExtensionBand
      && l.ExtensionUnit == BandToQuantUnitCount[l.ExtensionBand]
    else l.ExtensionBand == l.BandCount && l.ExtensionUnit == l.QuantizationUnitCount
  }

  /** An accepted layout extends at least as many units as it codes, and codes at least its stereo units. */
  lemma AcceptedUnits(l: BandLayout, blockType: int, config: Config.Atrac9Config)
    requires config.SampleRateIndex < 16 && BandsAccepted(l, blockType, config)
    ensures 0 <= l.QuantizationUnitCount <= l.ExtensionUnit <= UNIT_SLOTS
    ensures blockType == STEREO ==> 0 <= l.StereoQuantizationUnit.value <= l.QuantizationUnitCount
  {
    BandToQuantUnitCountIncreasing();
    MaxBandCountInRange();
  }

  /** A band-parameter stage: the layout, where the reader stops, and whether it throws. */
  datatype BandStep = BandStep(Layout: BandLayout, Next: nat, Result: Outcome<DecodeError>)

  /** The stereo band: read for a stereo block, the band count otherwise. */
  function StereoBand(bits: seq<bool>, pos: nat, l: BandLayout, blockType: int, minBandCount: nat): (r: BandStep)
    requires minBandCount <= 3
  {
    if blockType == STEREO then
      var band := BandField(bits, pos, minBandCount);
      BandStep(l.(StereoBand := band.Value, StereoQuantizationUnit := Some(BandToQuantUnitCount[band.Value])),
        band.Next, Pass)
    else BandStep(l.(StereoBand := l.BandCount), pos, Pass)
  }

  /** The extension flag and, when set, the extension band, which must lie between the band count and the limit. */
  function ExtensionBand(bits: seq<bool>, pos: nat, l: BandLayout, highSampleRate: bool): (r: BandStep)
  {
    var enabled := Flag(bits, pos);
    var flagged := l.(BandExtensionEnabled := enabled);
    if enabled then
      var band := BandField(bits, pos + 1, MinBandCount(highSampleRate));
      var extended := flagged.(ExtensionBand := band.Value);
      if band.Value < l.BandCount || band.Value > MaxExtensionBand(highSampleRate) then
        BandStep(extended, band.Next, Fail(INVALID))
      else BandStep(extended.(ExtensionUnit := BandToQuantUnitCount[band.Value]), band.Next, Pass)
    else BandStep(flagged.(ExtensionBand := l.BandCount, ExtensionUnit := l.QuantizationUnitCount), pos + 1, Pass)
  }

  /**
   * `readBandParams`: the band count, the stereo band and the extension band, each checked
   * as soon as it is known. The fields read before a failed check keep their new values.
   */
  function BandParams(bits: seq<bool>, pos: nat, l: BandLayout, blockType: int, config: Config.Atrac9Config): (r: BandStep)
    requires config.SampleRateIndex < 16
  {
    var minBandCount := MinBandCount(config.HighSampleRate);
    var band := BandField(bits, pos, minBandCount);
    var counted := l.(BandCount := band.Value, QuantizationUnitCount := BandToQuantUnitCount[band.Value]);
    if band.Value > MaxBandCount[config.SampleRateIndex] then BandStep(counted, band.Next, Fail(INVALID))
    else
      var stereo := StereoBand(bits, band.Next, counted, blockType, minBandCount);
      if stereo.Layout.StereoBand > band.Value then BandStep(stereo.Layout, stereo.Next, Fail(INVALID))
      else ExtensionBand(bits, stereo.Next, stereo.Layout, config.HighSampleRate)
  }

  /**
   * Every unit count the band stage stores comes from the band table, so the counts stay
   * within the 30 units, whether the stage passes or stops at a failed check.
   */
  lemma BandParamsUnitCounts(bits: seq<bool>, pos: nat, s: BlockState, blockType: int, config: Config.Atrac9Config)
    requires config.SampleRateIndex < 16 && UnitCounts(s)
    ensures UnitCounts(WithLayout(s, BandParams(bits, pos, LayoutOf(s), blockType, config).Layout))
  {
    var l := BandParams(bits, pos, LayoutOf(s), blockType, config).Layout;
    BandParamsLayoutUnits(bits, pos, LayoutOf(s), blockType, config);
    LayoutUnitCounts(s, l);
  }

  lemma LayoutUnitCounts(s: BlockState, l: BandLayout)
    requires UnitCounts(s) && LayoutUnits(l)
    ensures UnitCounts(WithLayout(s, l))
  {
  }

  lemma BandParamsLayoutUnits(bits: seq<bool>, pos: nat, l: BandLayout, blockType: int, config: Config.Atrac9Config)
    requires config.SampleRateIndex < 16 && LayoutUnits(l)
    ensures LayoutUnits(BandParams(bits, pos, l, blockType, config).Layout)
  {
    var minBandCount := MinBandCount(config.HighSampleRate);
    var band := BandField(bits, pos, minBandCount);
    TableUnits(band.Value);
    var counted := l.(BandCount := band.Value, QuantizationUnitCount := BandToQuantUnitCount[band.Value]);
    if band.Value <= MaxBandCount[config.SampleRateIndex] {
      StereoBandUnits(bits, band.Next, counted, blockType, minBandCount);
      var stereo := StereoBand(bits, band.Next, counted, blockType, minBandCount);
      if stereo.Layout.StereoBand <= band.Value {
        ExtensionBandUnits(bits, stereo.Next, stereo.Layout, config.HighSampleRate);
      }
    }
  }

  lemma StereoBandUnits(bits: seq<bool>, pos: nat, l: BandLayout, blockType: int, minBandCount: nat)
    requires minBandCount <= 3 && LayoutUnits(l)
    ensures LayoutUnits(StereoBand(bits, pos, l, blockType, minBandCount).Layout)
  {
    TableUnits(BandField(bits, pos, minBandCount).Value);
  }

  lemma ExtensionBandUnits(bits: seq<bool>, pos: nat, l: BandLayout, highSampleRate: bool)
    requires LayoutUnits(l)
    ensures LayoutUnits(ExtensionBand(bits, pos, l, highSampleRate).Layout)
  {
    TableUnits(BandField(bits, pos + 1, MinBandCount(highSampleRate)).Value);
  }

  /** The unit counts of a layout lie within the 30 units. */
  predicate LayoutUnits(l: BandLayout)
  {
    && 0 <= l.QuantizationUnitCount <= UNIT_SLOTS && 0 <= l.ExtensionUnit <= UNIT_SLOTS
    && (l.StereoQuantizationUnit.Some? ==> 0 <= l.StereoQuantizationUnit.value <= UNIT_SLOTS)
  }

  lemma TableUnits(b: int)
    requires 0 <= b < |BandToQuantUnitCount|
    ensures 0 <= BandToQuantUnitCount[b] <= UNIT_SLOTS
  {
    BandToQuantUnitCountIncreasing();
    if 0 < b < 18 {
      assert BandToQuantUnitCount[0] < BandToQuantUnitCount[b] < BandToQuantUnitCount[18];
    }
  }

  /** The layout passes exactly when every check holds, and only the invalid-data error is raised. */
  lemma BandParamsChecks(bits: seq<bool>, pos: nat, l: BandLayout, blockType: int, config: Config.Atrac9Config)
    requires config.SampleRateIndex < 16
    ensures var r := BandParams(bits, pos, l, blockType, config);
      && (r.Result.Pass? <==> BandsAccepted(r.Layout, blockType, config))
      && (r.Result.Fail? ==> r.Result.error == INVALID)
  {
    MaxBandCountInRange();
    var minBandCount := MinBandCount(config.HighSampleRate);
    var band := BandField(bits, pos, minBandCount);
    var counted := l.(BandCount := band.Value, QuantizationUnitCount := BandToQuantUnitCount[band.Value]);
    if band.Value <= MaxBandCount[config.SampleRateIndex] {
      var stereo := StereoBand(bits, band.Next, counted, blockType, minBandCount);
      StereoBandKeeps(bits, band.Next, counted, blockType, minBandCount);
      if stereo.Layout.StereoBand <= band.Value {
        ExtensionBandChecks(bits, stereo.Next, stereo.Layout, config.HighSampleRate);
      }
    }
  }

  /** The stereo step sets only the stereo fields, and sets them as a stereo block must have them. */
  lemma StereoBandKeeps(bits: seq<bool>, pos: nat, l: BandLayout, blockType: int, minBandCount: nat)
    requires minBandCount <= 3
    ensures var r := StereoBand(bits, pos, l, blockType, minBandCount).Layout;
      && r == l.(StereoBand := r.StereoBand, StereoQuantizationUnit := r.StereoQuantizationUnit)
      && (r.StereoBand <= l.BandCount <==> StereoAccepted(r, blockType, minBandCount))
  {
  }

  /** The extension step passes exactly when the extension band is acceptable, and keeps the other fields. */
  lemma ExtensionBandChecks(bits: seq<bool>, pos: nat, l: BandLayout, highSampleRate: bool)
    ensures var r := ExtensionBand(bits, pos, l, highSampleRate);
      && r.Layout == l.(BandExtensionEnabled := r.Layout.BandExtensionEnabled, ExtensionBand := r.Layout.ExtensionBand,
           ExtensionUnit := r.Layout.ExtensionUnit)
      && (r.Result.Pass? <==> ExtensionAccepted(r.Layout, highSampleRate))
      && (r.Result.Fail? ==> r.Result.error == INVALID)
  {
  }

  method ReadBandParams(reader: BitReader, block: Block) returns (r: Outcome<DecodeError>)
    requires reader.Valid() && block.Config.SampleRateIndex < 16
    modifies reader, block
    ensures reader.Valid() && unchanged(reader`buffer, reader`bits)
    ensures var step := BandParams(reader.bits, old(reader.position), LayoutOf(old(block.State())), block.BlockType, block.Config);
      block.State() == WithLayout(old(block.State()), step.Layout) && reader.position == step.Next && r == step.Result
  {
    var l;
    l, r := ReadBandLayout(reader, LayoutOf(block.State()), block.BlockType, block.Config);
    StoreLayout(block, l);
  }

  /** The reading half of `readBandParams`, on the layout as a value. */
  method ReadBandLayout(reader: BitReader, l0: BandLayout, blockType: int, config: Config.Atrac9Config)
    returns (l: BandLayout, r: Outcome<DecodeError>)
    requires reader.Valid() && config.SampleRateIndex < 16
    modifies reader
    ensures reader.Valid() && unchanged(reader`buffer, reader`bits)
    ensures var step := BandParams(reader.bits, old(reader.position), l0, blockType, config);
      l == step.Layout && reader.position == step.Next && r == step.Result
  {
    var minBandCount := MinBandCount(config.HighSampleRate);
    var bandCount := ReadBandField(reader, minBandCount);
    l := l0.(BandCount := bandCount, QuantizationUnitCount := BandToQuantUnitCount[bandCount]);
    if bandCount > MaxBandCount[config.SampleRateIndex] {
      return l, Fail(INVALID);
    }
    l := ReadStereoBand(reader, l, blockType, minBandCount);
    if l.StereoBand > bandCount {
      return l, Fail(INVALID);
    }
    l, r := ReadExtensionBand(reader, l, config.HighSampleRate);
  }

  method ReadStereoBand(reader: BitReader, l0: BandLayout, blockType: int, minBandCount: nat) returns (l: BandLayout)
    requires reader.Valid() && minBandCount <= 3
    modifies reader
    ensures reader.Valid() && unchanged(reader`buffer, reader`bits)
    ensures var step := StereoBand(reader.bits, old(reader.position), l0, blockType, minBandCount);
      l == step.Layout && reader.position == step.Next
  {
    if blockType == STEREO {
      var stereoBand := ReadBandField(reader, minBandCount);
      l := l0.(StereoBand := stereoBand, StereoQuantizationUnit := Some(BandToQuantUnitCount[stereoBand]));
    } else {
      l := l0.(StereoBand := l0.BandCount);
    }
  }

  method ReadExtensionBand(reader: BitReader, l0: BandLayout, highSampleRate: bool)
    returns (l: BandLayout, r: Outcome<DecodeError>)
    requires reader.Valid()
    modifies reader
    ensures reader.Valid() && unchanged(reader`buffer, reader`bits)
    ensures var step := ExtensionBand(reader.bits, old(reader.position), l0, highSampleRate);
      l == step.Layout && reader.position == step.Next && r == step.Result
  {
    var enabled := ReadFlag(reader);
    l := l0.(BandExtensionEnabled := enabled);
    if enabled {
      var extensionBand := ReadBandField(reader, MinBandCount(highSampleRate));
      l := l.(ExtensionBand := extensionBand);
      if extensionBand < l0.BandCount || extensionBand > MaxExtensionBand(highSampleRate) {
        return l, Fail(INVALID);
      }
      l := l.(ExtensionUnit := BandToQuantUnitCount[extensionBand]);
    } else {
      l := l.(ExtensionBand := l0.BandCount, ExtensionUnit := l0.QuantizationUnitCount);
    }
    r := Pass;
  }

  // ---------------------------------------------------------------------------------------------
  // Gradient parameters

  /** The fields `readGradientParams` assigns. */
  datatype GradientHeader = GradientHeader(Mode: int, StartUnit: int, StartValue: int, EndUnit: int,
    EndValue: int, Boundary: int)

  /** The block state with a new gradient header and every other field kept. */
  function WithGradientHeader(s: BlockState, h: GradientHeader): BlockState
  {
    s.(GradientMode := h.Mode, GradientStartUnit := h.StartUnit, GradientStartValue := h.StartValue,
      GradientEndUnit := h.EndUnit, GradientEndValue := h.EndValue, GradientBoundary := h.Boundary)
  }

  /** A gradient header and where the reader stops after it. */
  datatype HeaderRead = HeaderRead(Header: GradientHeader, Next: nat)

  /**
   * The gradient fields: a 2-bit mode; for a non-zero mode a 5-bit start unit and start value
   * with the end fixed at unit 31 and value 31, otherwise 6-bit start and end units (the end
   * one past the field) and 5-bit start and end values; then a 4-bit boundary.
   */
  function GradientFields(bits: seq<bool>, pos: nat): (r: HeaderRead)
  {
    var mode := Read(Unsigned(2), bits, pos);
    if mode.Value > 0 then
      var startUnit := Read(Unsigned(5), bits, mode.Next);
      var startValue := Read(Unsigned(5), bits, startUnit.Next);
      var boundary := Read(Unsigned(4), bits, startValue.Next);
      HeaderRead(GradientHeader(mode.Value, startUnit.Value, startValue.Value, 31, 31, boundary.Value), boundary.Next)
    else
      var startUnit := Read(Unsigned(6), bits, mode.Next);
      var endUnit := Read(Unsigned(6), bits, startUnit.Next);
      var startValue := Read(Unsigned(5), bits, endUnit.Next);
      var endValue := Read(Unsigned(5), bits, startValue.Next);
      var boundary := Read(Unsigned(4), bits, endValue.Next);
      HeaderRead(GradientHeader(mode.Value, startUnit.Value, startValue.Value, endUnit.Value + 1, endValue.Value,
        boundary.Value), boundary.Next)
  }

  /** The header `readGradientParams` accepts for a block coding `units` units. */
  predicate GradientAccepted(h: GradientHeader, units: int)
  {
    && h.Boundary <= units
    && 1 <= h.StartUnit <= h.EndUnit < 48
    && 0 <= h.StartValue < 32 && 0 <= h.EndValue < 32
  }

  /** The six checks of `readGradientParams`, in the order it makes them. */
  function GradientCheck(h: GradientHeader, units: int): (r: Outcome<DecodeError>)
    ensures r.Pass? <==> GradientAccepted(h, units)
    ensures r.Fail? ==> r.error == INVALID
  {
    if h.Boundary > units then Fail(INVALID)
    else if h.StartUnit < 1 || h.StartUnit >= 48 then Fail(INVALID)
    else if h.EndUnit < 1 || h.EndUnit >= 48 then Fail(INVALID)
    else if h.StartUnit > h.EndUnit then Fail(INVALID)
    else if h.StartValue < 0 || h.StartValue >= 32 then Fail(INVALID)
    else if h.EndValue < 0 || h.EndValue >= 32 then Fail(INVALID)
    else Pass
  }

  /**
   * Every field is read before any check, and the values always lie in range: the checks that
   * can fail are the boundary, the start unit and the end unit. A non-zero mode fixes the end of
   * the slope at unit 31 and value 31.
   */
  lemma GradientFieldsChecked(bits: seq<bool>, pos: nat, units: int)
    ensures var h := GradientFields(bits, pos).Header;
      && 0 <= h.Mode < 4 && 0 <= h.Boundary < 16
      && (h.Mode > 0 ==> h.EndUnit == 31 && h.EndValue == 31 && 0 <= h.StartUnit < 32)
      && (GradientAccepted(h, units) <==> h.Boundary <= units && 1 <= h.StartUnit <= h.EndUnit < 48)
  {
    var mode := Read(Unsigned(2), bits, pos);
    UnsignedField(bits, pos, 2);
    if mode.Value > 0 {
      ShortGradientFields(bits, mode.Next);
    } else {
      LongGradientFields(bits, mode.Next);
    }
  }

  lemma ShortGradientFields(bits: seq<bool>, pos: nat)
    ensures var startUnit := Read(Unsigned(5), bits, pos);
      var startValue := Read(Unsigned(5), bits, startUnit.Next);
      var boundary := Read(Unsigned(4), bits, startValue.Next);
      0 <= startUnit.Value < 32 && 0 <= startValue.Value < 32 && 0 <= boundary.Value < 16
  {
    var startUnit := Read(Unsigned(5), bits, pos);
    var startValue := Read(Unsigned(5), bits, startUnit.Next);
    UnsignedField(bits, pos, 5);
    UnsignedField(bits, startUnit.Next, 5);
    UnsignedField(bits, startValue.Next, 4);
  }

  lemma LongGradientFields(bits: seq<bool>, pos: nat)
    ensures var startUnit := Read(Unsigned(6), bits, pos);
      var endUnit := Read(Unsigned(6), bits, startUnit.Next);
      var startValue := Read(Unsigned(5), bits, endUnit.Next);
      var endValue := Read(Unsigned(5), bits, startValue.Next);
      var boundary := Read(Unsigned(4), bits, endValue.Next);
      && 0 <= startUnit.Value && 0 <= endUnit.Value && 0 <= startValue.Value < 32 && 0 <= endValue.Value < 32
      && 0 <= boundary.Value < 16
  {
    var startUnit := Read(Unsigned(6), bits, pos);
    var endUnit := Read(Unsigned(6), bits, startUnit.Next);
    var startValue := Read(Unsigned(5), bits, endUnit.Next);
    var endValue := Read(Unsigned(5), bits, startValue.Next);
    UnsignedField(bits, pos, 6);
    UnsignedField(bits, startUnit.Next, 6);
    UnsignedField(bits, endUnit.Next, 5);
    UnsignedField(bits, startValue.Next, 5);
    UnsignedField(bits, endValue.Next, 4);
  }

  /** An accepted header describes a gradient that `createGradient` can draw. */
  lemma AcceptedGradientDrawable(s: BlockState, h: GradientHeader)
    requires GradientAccepted(h, s.QuantizationUnitCount)
    ensures BA.CurveExists(WithGradientHeader(s, h))
  {
  }

  method ReadGradientFields(reader: BitReader) returns (h: GradientHeader)
    requires reader.Valid()
    modifies reader
    ensures reader.Valid() && unchanged(reader`buffer, reader`bits)
    ensures GradientFields(reader.bits, old(reader.position)) == HeaderRead(h, reader.position)
  {
    var mode := ReadField(reader, Unsigned(2));
    if mode > 0 {
      var startUnit := ReadField(reader, Unsigned(5));
      var startValue := ReadField(reader, Unsigned(5));
      var boundary := ReadField(reader, Unsigned(4));
      h := GradientHeader(mode, startUnit, startValue, 31, 31, boundary);
    } else {
      var startUnit := ReadField(reader, Unsigned(6));
      var endUnit := ReadField(reader, Unsigned(6));
      var startValue := ReadField(reader, Unsigned(5));
      var endValue := ReadField(reader, Unsigned(5));
      var boundary := ReadField(reader, Unsigned(4));
      h := GradientHeader(mode, startUnit, startValue, endUnit + 1, endValue, boundary);
    }
  }

  /** `readGradientParams`: the header is stored in full, then checked against the block's unit count. */
  method ReadGradientParams(reader: BitReader, block: Block) returns (r: Outcome<DecodeError>)
    requires reader.Valid()
    modifies reader, block
    ensures reader.Valid() && unchanged(reader`buffer, reader`bits)
    ensures var read := GradientFields(reader.bits, old(reader.position));
      && block.State() == WithGradientHeader(old(block.State()), read.Header)
      && reader.position == read.Next
      && r == GradientCheck(read.Header, block.QuantizationUnitCount)
  {
    var h := ReadGradientFields(reader);
    StoreGradientHeader(block, h);
    if h.Boundary > block.QuantizationUnitCount {
      return Fail(INVALID);
    }
    if h.StartUnit < 1 || h.StartUnit >= 48 {
      return Fail(INVALID);
    }
    if h.EndUnit < 1 || h.EndUnit >= 48 {
      return Fail(INVALID);
    }
    if h.StartUnit > h.EndUnit {
      return Fail(INVALID);
    }
    if h.StartValue < 0 || h.StartValue >= 32 {
      return Fail(INVALID);
    }
    if h.EndValue < 0 || h.EndValue >= 32 {
      return Fail(INVALID);
    }
    return Pass;
  }

  method StoreGradientHeader(block: Block, h: GradientHeader)
    modifies block
    ensures block.State() == WithGradientHeader(old(block.State()), h)
  {
    StoreGradientStart(block, h.Mode, h.StartUnit, h.StartValue);
    StoreGradientEnd(block, h.EndUnit, h.EndValue, h.Boundary);
  }

  method StoreGradientStart(block: Block, mode: int, startUnit: int, startValue: int)
    modifies block
    ensures block.State() == old(block.State()).(GradientMode := mode, GradientStartUnit := startUnit,
      GradientStartValue := startValue)
  {
    block.GradientMode, block.GradientStartUnit, block.GradientStartValue := mode, startUnit, startValue;
  }

  method StoreGradientEnd(block: Block, endUnit: int, endValue: int, boundary: int)
    modifies block
    ensures block.State() == old(block.State()).(GradientEndUnit := endUnit, GradientEndValue := endValue,
      GradientBoundary := boundary)
  {
    block.GradientEndUnit, block.GradientEndValue, block.GradientBoundary := endUnit, endValue, boundary;
  }

  // ---------------------------------------------------------------------------------------------
  // Runs of fields stored into a buffer

  /** One pass of a store loop: the next field read and written after those already written. */
  method StoreField(reader: BitReader, c: FieldCode, base: seq<int>, s: seq<int>, at: nat, i: nat,
                    ghost p0: nat, ghost done: seq<int>) returns (s': seq<int>, ghost done': seq<int>)
    requires reader.Valid() && Readable(c) && i == |done| && at + i < |base|
    requires Run(c, reader.bits, p0, |done|) == Fields(done, reader.position) && Placed(base, s, at, done)
    modifies reader
    ensures reader.Valid() && unchanged(reader`buffer, reader`bits) && |done'| == |done| + 1
    ensures Run(c, reader.bits, p0, |done'|) == Fields(done', reader.position) && Placed(base, s', at, done')
  {
    RunStep(c, reader.bits, p0, |done|);
    var v := ReadField(reader, c);
    PlaceNext(base, s, at, done, v);
    s' := s[at + i := v];
    done' := done + [v];
  }

  /** A loop that stores n consecutive fields into a buffer from index `at` on. */
  method ReadRunInto(reader: BitReader, c: FieldCode, base: seq<int>, at: nat, n: nat) returns (s: seq<int>)
    requires reader.Valid() && Readable(c) && at + n <= |base|
    modifies reader
    ensures reader.Valid() && unchanged(reader`buffer, reader`bits)
    ensures var run := Run(c, reader.bits, old(reader.position), n);
      s == SF.Splice(base, at, run.Values) && reader.position == run.End
  {
    ghost var p0 := reader.position;
    ghost var done: seq<int> := [];
    s := base;
    var i: nat := 0;
    while i < n
      invariant reader.Valid() && unchanged(reader`buffer, reader`bits) && i <= n && |done| == i
      invariant Run(c, reader.bits, p0, i) == Fields(done, reader.position) && Placed(base, s, at, done)
    {
      s, done := StoreField(reader, c, base, s, at, i, p0, done);
      i := i + 1;
    }
    Spliced(base, s, at, done);
  }

  // ---------------------------------------------------------------------------------------------
  // Stereo parameters

  /** The fields `readStereoParams` assigns. */
  datatype StereoFields = StereoFields(Primary: Option<int>, HasSigns: bool, Signs: seq<int>)

  function StereoOf(s: BlockState): StereoFields
  {
    StereoFields(s.PrimaryChannelIndex, s.HasJointStereoSigns, s.JointStereoSigns)
  }

  function WithStereo(s: BlockState, f: StereoFields): BlockState
  {
    s.(PrimaryChannelIndex := f.Primary, HasJointStereoSigns := f.HasSigns, JointStereoSigns := f.Signs)
  }

  datatype StereoRead = StereoRead(Stereo: StereoFields, Next: nat)

  /**
   * The sign loop runs from the stereo unit up to the unit count. With no stereo unit assigned
   * the loop starts at `undefined` and the comparison that opens it is false.
   */
  function SignRun(bits: seq<bool>, pos: nat, signs: seq<int>, stereoUnit: Option<int>, units: int): (r: Fields)
    requires |signs| == UNIT_SLOTS && units <= UNIT_SLOTS && (stereoUnit.Some? ==> 0 <= stereoUnit.value)
  {
    if stereoUnit.Some? && stereoUnit.value < units then
      var run := Run(Unsigned(1), bits, pos, units - stereoUnit.value);
      Fields(SF.Splice(signs, stereoUnit.value, run.Values), run.End)
    else Fields(signs, pos)
  }

  /**
   * `readStereoParams`: nothing for a mono block; for a stereo block the primary channel's
   * index, the joint-stereo flag and, when it is set, one sign bit per unit from the stereo unit
   * up to the unit count. A clear flag zeroes every sign.
   */
  function StereoParams(bits: seq<bool>, pos: nat, s: BlockState, blockType: int): (r: StereoRead)
    requires |s.JointStereoSigns| == UNIT_SLOTS && UnitCounts(s)
  {
    if blockType != STEREO then StereoRead(StereoOf(s), pos)
    else
      var primary := Read(Unsigned(1), bits, pos);
      var hasSigns := Flag(bits, pos + 1);
      if hasSigns then
        var run := SignRun(bits, pos + 2, s.JointStereoSigns, s.StereoQuantizationUnit, s.QuantizationUnitCount);
        StereoRead(StereoFields(Some(primary.Value), true, run.Values), run.End)
      else StereoRead(StereoFields(Some(primary.Value), false, ZeroFill(UNIT_SLOTS)), pos + 2)
  }

  /**
   * A stereo block's primary index is 0 or 1. Its signs keep thirty entries: with the flag set,
   * every unit from the stereo unit up to the unit count holds the bit read for it and the others
   * keep their signs; with the flag clear all are zero. A mono block keeps everything.
   */
  lemma StereoParamsSigns(bits: seq<bool>, pos: nat, s: BlockState, blockType: int, i: nat)
    requires |s.JointStereoSigns| == UNIT_SLOTS && UnitCounts(s) && i < UNIT_SLOTS
    ensures var r := StereoParams(bits, pos, s, blockType).Stereo;
      && |r.Signs| == UNIT_SLOTS
      && (blockType != STEREO ==> r == StereoOf(s))
      && (blockType == STEREO ==> r.Primary.Some? && 0 <= r.Primary.value <= 1 && r.HasSigns == Flag(bits, pos + 1))
      && (blockType == STEREO && !r.HasSigns ==> r.Signs[i] == 0)
      && (blockType == STEREO && r.HasSigns ==>
            var q := s.StereoQuantizationUnit;
            if q.Some? && q.value <= i < s.QuantizationUnitCount then
              r.Signs[i] == Value(bits, pos + 2 + (i - q.value), 1) <= 1
            else r.Signs[i] == s.JointStereoSigns[i])
  {
    if blockType == STEREO {
      UnsignedField(bits, pos, 1);
      if Flag(bits, pos + 1) {
        SignRunAt(bits, pos + 2, s.JointStereoSigns, s.StereoQuantizationUnit, s.QuantizationUnitCount, i);
      }
    }
  }

  /** Unit i of a sign run: the bit read for it when the loop reaches it, its old sign otherwise. */
  lemma SignRunAt(bits: seq<bool>, pos: nat, signs: seq<int>, q: Option<int>, units: int, i: nat)
    requires |signs| == UNIT_SLOTS && units <= UNIT_SLOTS && (q.Some? ==> 0 <= q.value) && i < UNIT_SLOTS
    ensures var r := SignRun(bits, pos, signs, q, units).Values;
      && |r| == UNIT_SLOTS
      && if q.Some? && q.value <= i < units then r[i] == Value(bits, pos + (i - q.value), 1) <= 1
         else r[i] == signs[i]
  {
    if q.Some? && q.value <= i < units {
      var n := units - q.value;
      var k := i - q.value;
      FixedRun(Unsigned(1), bits, pos, n, k, pos + k);
      UnsignedField(bits, pos + k, 1);
    }
  }

  method ReadStereoParams(reader: BitReader, block: Block)
    requires reader.Valid() && |block.JointStereoSigns| == UNIT_SLOTS && UnitCounts(block.State())
    modifies reader, block
    ensures reader.Valid() && unchanged(reader`buffer, reader`bits)
    ensures var read := StereoParams(reader.bits, old(reader.position), old(block.State()), block.BlockType);
      block.State() == WithStereo(old(block.State()), read.Stereo) && reader.position == read.Next
  {
    if block.BlockType != STEREO {
      return;
    }
    var primary := ReadField(reader, Unsigned(1));
    var hasSigns := ReadFlag(reader);
    var signs;
    if hasSigns {
      signs := ReadSigns(reader, block.JointStereoSigns, block.StereoQuantizationUnit, block.QuantizationUnitCount);
    } else {
      signs := ZeroFill(UNIT_SLOTS);
    }
    StoreStereo(block, StereoFields(Some(primary), hasSigns, signs));
  }

  method ReadSigns(reader: BitReader, signs: seq<int>, stereoUnit: Option<int>, units: int) returns (s: seq<int>)
    requires reader.Valid() && |signs| == UNIT_SLOTS && units <= UNIT_SLOTS && (stereoUnit.Some? ==> 0 <= stereoUnit.value)
    modifies reader
    ensures reader.Valid() && unchanged(reader`buffer, reader`bits)
    ensures SignRun(reader.bits, old(reader.position), signs, stereoUnit, units) == Fields(s, reader.position)
  {
    if stereoUnit.Some? && stereoUnit.value < units {
      s := ReadRunInto(reader, Unsigned(1), signs, stereoUnit.value, units - stereoUnit.value);
    } else {
      s := signs;
    }
  }

  method StoreStereo(block: Block, f: StereoFields)
    modifies block
    ensures block.State() == WithStereo(old(block.State()), f)
  {
    block.PrimaryChannelIndex, block.HasJointStereoSigns, block.JointStereoSigns := f.Primary, f.HasSigns, f.Signs;
  }

  // ---------------------------------------------------------------------------------------------
  // Extension parameters

  /** The block fields `readExtensionParams` assigns. */
  datatype ExtensionFields = ExtensionFields(HasData: bool, Mode: int, DataLength: int)

  function ExtensionOf(s: BlockState): ExtensionFields
  {
    ExtensionFields(s.HasExtensionData, s.BexMode, s.BexDataLength)
  }

  function WithExtension(s: BlockState, e: ExtensionFields): BlockState
  {
    s.(HasExtensionData := e.HasData, BexMode := e.Mode, BexDataLength := e.DataLength)
  }

  /** The channel fields `readExtensionParams` assigns. */
  datatype ChannelBex = ChannelBex(Mode: int, ValueCount: int, Values: seq<int>)

  function BexOf(c: ChannelState): ChannelBex
  {
    ChannelBex(c.BexMode, c.BexValueCount, c.BexValues)
  }

  function WithBex(c: ChannelState, b: ChannelBex): ChannelState
  {
    c.(BexMode := b.Mode, BexValueCount := b.ValueCount, BexValues := b.Values)
  }

  /** A channel's extension header as read: mode, value count and where the reader stops. */
  datatype BexHead = BexHead(Mode: int, ValueCount: int, Next: nat)

  /**
   * `readHeader`: a 2-bit mode, which only counts when the extension covers more than two
   * bands (mode 4 otherwise), and the number of values that mode codes for the band count.
   */
  function BexHeader(bits: seq<bool>, pos: nat, bexBand: int, t: CodecTables): (h: BexHead)
    requires BexRows(t, bexBand)
    ensures 0 <= h.Mode <= 4 && 0 <= h.ValueCount <= 4 && h.Next == pos + 2
    ensures h.ValueCount <= |t.BexDataLengths[h.Mode][bexBand]|
  {
    UnsignedField(bits, pos, 2);
    var mode := Read(Unsigned(2), bits, pos);
    var m := if bexBand > 2 then mode.Value else 4;
    BexHead(m, t.BexEncodedValueCounts[m][bexBand], mode.Next)
  }

  /** `readData`'s widths: the data lengths of the channel's mode and band, one per value. */
  function BexWidths(b: ChannelBex, bexBand: int, t: CodecTables): (ws: seq<int>)
    requires BexRows(t, bexBand) && 0 <= b.Mode < 5 && 0 <= b.ValueCount <= |t.BexDataLengths[b.Mode][bexBand]|
    ensures |ws| == b.ValueCount && forall i :: 0 <= i < |ws| ==> 0 <= ws[i] < 0x100
  {
    t.BexDataLengths[b.Mode][bexBand][..b.ValueCount]
  }

  /** Consecutive unsigned fields of the given widths. */
  function Widths(ws: seq<int>, bits: seq<bool>, pos: nat): (r: UnpackHuffman.Fields)
    requires forall i :: 0 <= i < |ws| ==> 0 <= ws[i]
    ensures |r.Values| == |ws| && r.End >= pos
    decreases |ws|
  {
    if |ws| == 0 then UnpackHuffman.Fields([], pos)
    else
      var before := Widths(ws[..|ws| - 1], bits, pos);
      var d := Read(Unsigned(ws[|ws| - 1]), bits, before.End);
      UnpackHuffman.Fields(before.Values + [d.Value], d.Next)
  }

  /** Fixed-width fields end the sum of their widths on, and each narrow one lies below 2^width. */
  lemma {:induction false} WidthsAt(ws: seq<int>, bits: seq<bool>, pos: nat, k: nat)
    requires forall i :: 0 <= i < |ws| ==> 0 <= ws[i] <= 17
    requires k < |ws|
    ensures 0 <= Widths(ws, bits, pos).Values[k] < Pow2(ws[k])
    decreases |ws|
  {
    if k < |ws| - 1 {
      WidthsAt(ws[..|ws| - 1], bits, pos, k);
    } else {
      UnsignedField(bits, Widths(ws[..|ws| - 1], bits, pos).End, ws[k]);
    }
  }

  /** A channel's extension values: its value count of fields written over the first values. */
  function BexData(bits: seq<bool>, pos: nat, b: ChannelBex, bexBand: int, t: CodecTables): (r: UnpackHuffman.Fields)
    requires BexRows(t, bexBand) && 0 <= b.Mode < 5 && 0 <= b.ValueCount <= |t.BexDataLengths[b.Mode][bexBand]|
    requires b.ValueCount <= |b.Values|
    ensures |r.Values| == |b.Values|
  {
    var run := Widths(BexWidths(b, bexBand, t), bits, pos);
    UnpackHuffman.Fields(SF.Splice(b.Values, 0, run.Values), run.End)
  }

  /** The extension stage: the block's and the channels' new fields, where it stops, and whether it throws. */
  datatype ExtensionStep = ExtensionStep(Block: ExtensionFields, Channels: seq<ChannelBex>, Next: nat,
    Result: Outcome<DecodeError>)

  /** A channel's extension fields as a valid channel holds them: four values. */
  predicate BexShaped(cs: seq<ChannelBex>, blockType: int)
  {
    && |cs| == BlockTypeToChannelCount(blockType) && 1 <= |cs| <= 2
    && forall i :: 0 <= i < |cs| ==> |cs[i].Values| == 4
  }

  /**
   * `readExtensionParams`. With band extension on, the band count comes from the group table
   * for the block's unit count (a unit count the table has no row for reads an undefined row
   * and throws before anything is read); a stereo block then reads the second channel's
   * header, a mono block skips a bit. The flag that follows says whether extension data is
   * present. Without band extension the data is skipped by its length. With it the first
   * channel's header and a 5-bit length precede each channel's values, and more values than
   * the length announced are invalid.
   */
  function ExtensionParams(bits: seq<bool>, pos: nat, e: ExtensionFields, cs: seq<ChannelBex>, enabled: bool,
                           units: int, blockType: int, t: CodecTables): (r: ExtensionStep)
    requires BexTables(t) && BexShaped(cs, blockType)
  {
    if enabled then
      var info := BE.GetBexBandInfo(units, t);
      if info.Failure? then ExtensionStep(e, cs, pos, Fail(UndefinedAccess))
      else BandedExtension(bits, pos, e, cs, info.value.BandCount, blockType, t)
    else SkippedExtension(bits, pos, e, cs)
  }

  /** With band extension off: the flag, and when set a mode and a length whose bits are passed over. */
  function SkippedExtension(bits: seq<bool>, pos: nat, e: ExtensionFields, cs: seq<ChannelBex>): (r: ExtensionStep)
  {
    var hasData := Flag(bits, pos);
    if !hasData then ExtensionStep(e.(HasData := false), cs, pos + 1, Pass)
    else
      var mode := Read(Unsigned(2), bits, pos + 1);
      var length := Read(Unsigned(5), bits, mode.Next);
      ExtensionStep(ExtensionFields(true, mode.Value, length.Value), cs, length.Next + length.Value, Pass)
  }

  /** With band extension on: the second channel's header (a mono block passes over one bit), then the data. */
  function BandedExtension(bits: seq<bool>, pos: nat, e: ExtensionFields, cs: seq<ChannelBex>, band: int,
                           blockType: int, t: CodecTables): (r: ExtensionStep)
    requires BexRows(t, band) && BexShaped(cs, blockType)
  {
    if blockType == STEREO then
      var h := BexHeader(bits, pos, band, t);
      var cs' := cs[1 := cs[1].(Mode := h.Mode, ValueCount := h.ValueCount)];
      ExtensionData(bits, h.Next, e, cs', band, blockType, t)
    else ExtensionData(bits, pos + 1, e, cs, band, blockType, t)
  }

  /** The part of `readExtensionParams` after the flag, with band extension on. */
  function ExtensionData(bits: seq<bool>, pos: nat, e: ExtensionFields, cs: seq<ChannelBex>, band: int,
                         blockType: int, t: CodecTables): (r: ExtensionStep)
    requires BexRows(t, band) && BexShaped(cs, blockType)
    requires blockType == STEREO ==>
      0 <= cs[1].Mode < 5 && 0 <= cs[1].ValueCount <= 4 && cs[1].ValueCount <= |t.BexDataLengths[cs[1].Mode][band]|
  {
    var hasData := Flag(bits, pos);
    var flagged := e.(HasData := hasData);
    if !hasData then ExtensionStep(flagged, cs, pos + 1, Pass)
    else
      var h := BexHeader(bits, pos + 1, band, t);
      var first := cs[0].(Mode := h.Mode, ValueCount := h.ValueCount);
      var length := Read(Unsigned(5), bits, h.Next);
      var sized := flagged.(DataLength := length.Value);
      if length.Value <= 0 then ExtensionStep(sized, cs[0 := first], length.Next, Pass)
      else
        var end := length.Next + length.Value;
        var d0 := BexData(bits, length.Next, first, band, t);
        var cs0 := cs[0 := first.(Values := d0.Values)];
        if blockType == STEREO then
          var d1 := BexData(bits, d0.End, cs[1], band, t);
          var cs1 := cs0[1 := cs[1].(Values := d1.Values)];
          ExtensionStep(sized, cs1, d1.End, if d1.End > end then Fail(INVALID) else Pass)
        else ExtensionStep(sized, cs0, d0.End, if d0.End > end then Fail(INVALID) else Pass)
  }

  /**
   * Band extension turned on with a unit count the group table has no row for is the one way
   * the stage raises the undefined-row error; the only other error is values running past the
   * announced length. Without band extension no channel changes and nothing fails. The channels
   * keep four values each.
   */
  lemma ExtensionParamsOutcome(bits: seq<bool>, pos: nat, e: ExtensionFields, cs: seq<ChannelBex>, enabled: bool,
                               units: int, blockType: int, t: CodecTables)
    requires BexTables(t) && BexShaped(cs, blockType)
    ensures var r := ExtensionParams(bits, pos, e, cs, enabled, units, blockType, t);
      && BexShaped(r.Channels, blockType)
      && (r.Result == Fail(UndefinedAccess) <==> enabled && !(13 <= units <= UNIT_SLOTS))
      && (r.Result.Fail? && r.Result.error != UndefinedAccess ==>
            r.Result.error == INVALID && enabled && r.Block.HasData && r.Block.DataLength > 0)
      && (!enabled ==> r.Channels == cs && r.Result == Pass)
  {
    if enabled && 13 <= units <= UNIT_SLOTS {
      var band := BE.GetBexBandInfo(units, t).value.BandCount;
      assert ExtensionParams(bits, pos, e, cs, enabled, units, blockType, t)
        == BandedExtension(bits, pos, e, cs, band, blockType, t);
      if blockType == STEREO {
        var h := BexHeader(bits, pos, band, t);
        ExtensionDataOutcome(bits, h.Next, e, cs[1 := cs[1].(Mode := h.Mode, ValueCount := h.ValueCount)], band, blockType, t);
      } else {
        ExtensionDataOutcome(bits, pos + 1, e, cs, band, blockType, t);
      }
    }
  }

  /** After the flag, the stage can only fail by overrunning a positive announced length. */
  lemma ExtensionDataOutcome(bits: seq<bool>, pos: nat, e: ExtensionFields, cs: seq<ChannelBex>, band: int,
                             blockType: int, t: CodecTables)
    requires BexRows(t, band) && BexShaped(cs, blockType)
    requires blockType == STEREO ==>
      0 <= cs[1].Mode < 5 && 0 <= cs[1].ValueCount <= 4 && cs[1].ValueCount <= |t.BexDataLengths[cs[1].Mode][band]|
    ensures var r := ExtensionData(bits, pos, e, cs, band, blockType, t);
      && BexShaped(r.Channels, blockType)
      && (r.Result.Fail? ==> r.Result == Fail(INVALID) && r.Block.HasData && r.Block.DataLength > 0)
  {
  }

  /** Without band extension, data that is present is skipped: a 2-bit mode, a 5-bit length and that many bits. */
  lemma ExtensionSkipped(bits: seq<bool>, pos: nat, e: ExtensionFields, cs: seq<ChannelBex>, units: int,
                         blockType: int, t: CodecTables)
    requires BexTables(t) && BexShaped(cs, blockType) && Flag(bits, pos)
    ensures var r := ExtensionParams(bits, pos, e, cs, false, units, blockType, t);
      && r.Block == ExtensionFields(true, Value(bits, pos + 1, 2), Value(bits, pos + 3, 5))
      && r.Next == pos + 8 + Value(bits, pos + 3, 5)
  {
    UnsignedField(bits, pos + 1, 2);
    UnsignedField(bits, pos + 3, 5);
  }

  method ReadBexHeader(reader: BitReader, bexBand: int, t: CodecTables) returns (mode: int, count: int)
    requires reader.Valid() && BexRows(t, bexBand)
    modifies reader
    ensures reader.Valid() && unchanged(reader`buffer, reader`bits)
    ensures BexHeader(reader.bits, old(reader.position), bexBand, t) == BexHead(mode, count, reader.position)
  {
    UnsignedField(reader.bits, reader.position, 2);
    var bexMode := ReadField(reader, Unsigned(2));
    mode := if bexBand > 2 then bexMode else 4;
    count := t.BexEncodedValueCounts[mode][bexBand];
  }

  /** `readData`'s loop: one field per width, written over the values from the first on. */
  method ReadWidths(reader: BitReader, ws: seq<int>, base: seq<int>) returns (s: seq<int>)
    requires reader.Valid() && |ws| <= |base| && forall i :: 0 <= i < |ws| ==> 0 <= ws[i]
    modifies reader
    ensures reader.Valid() && unchanged(reader`buffer, reader`bits)
    ensures var run := Widths(ws, reader.bits, old(reader.position));
      s == SF.Splice(base, 0, run.Values) && reader.position == run.End
  {
    ghost var p0 := reader.position;
    ghost var done: seq<int> := [];
    s := base;
    var i: nat := 0;
    while i < |ws|
      invariant reader.Valid() && unchanged(reader`buffer, reader`bits) && i <= |ws| && |done| == i
      invariant Widths(ws[..i], reader.bits, p0) == UnpackHuffman.Fields(done, reader.position)
      invariant Placed(base, s, 0, done)
    {
      assert ws[..i + 1][..i] == ws[..i];
      var v := ReadField(reader, Unsigned(ws[i]));
      PlaceNext(base, s, 0, done, v);
      s := s[i := v];
      done := done + [v];
      i := i + 1;
    }
    assert ws[..i] == ws;
    Spliced(base, s, 0, done);
  }

  method ReadBexData(reader: BitReader, b: ChannelBex, bexBand: int, t: CodecTables) returns (values: seq<int>)
    requires reader.Valid() && BexRows(t, bexBand) && 0 <= b.Mode < 5
    requires 0 <= b.ValueCount <= |t.BexDataLengths[b.Mode][bexBand]| && b.ValueCount <= |b.Values|
    modifies reader
    ensures reader.Valid() && unchanged(reader`buffer, reader`bits)
    ensures BexData(reader.bits, old(reader.position), b, bexBand, t) == UnpackHuffman.Fields(values, reader.position)
  {
    values := ReadWidths(reader, BexWidths(b, bexBand, t), b.Values);
  }

  /** The reading half of `readExtensionParams`, on the fields as values. */
  method ReadExtensionFields(reader: BitReader, e: ExtensionFields, cs: seq<ChannelBex>, enabled: bool,
                             units: int, blockType: int, t: CodecTables)
    returns (e': ExtensionFields, cs': seq<ChannelBex>, r: Outcome<DecodeError>)
    requires reader.Valid() && BexTables(t) && BexShaped(cs, blockType)
    modifies reader
    ensures reader.Valid() && unchanged(reader`buffer, reader`bits)
    ensures ExtensionParams(reader.bits, old(reader.position), e, cs, enabled, units, blockType, t)
      == ExtensionStep(e', cs', reader.position, r)
  {
    if enabled {
      var info := BE.GetBexBandInfo(units, t);
      if info.Failure? {
        return e, cs, Fail(UndefinedAccess);
      }
      e', cs', r := ReadBandedExtension(reader, e, cs, info.value.BandCount, blockType, t);
    } else {
      e' := ReadSkippedExtension(reader, e, cs);
      cs', r := cs, Pass;
    }
  }

  method ReadSkippedExtension(reader: BitReader, e: ExtensionFields, ghost cs: seq<ChannelBex>) returns (e': ExtensionFields)
    requires reader.Valid()
    modifies reader
    ensures reader.Valid() && unchanged(reader`buffer, reader`bits)
    ensures SkippedExtension(reader.bits, old(reader.position), e, cs) == ExtensionStep(e', cs, reader.position, Pass)
  {
    var hasData := ReadFlag(reader);
    if !hasData {
      return e.(HasData := false);
    }
    var mode := ReadField(reader, Unsigned(2));
    var length := ReadField(reader, Unsigned(5));
    reader.position := reader.position + length;
    return ExtensionFields(true, mode, length);
  }

  method ReadBandedExtension(reader: BitReader, e: ExtensionFields, cs: seq<ChannelBex>, band: int,
                             blockType: int, t: CodecTables)
    returns (e': ExtensionFields, cs': seq<ChannelBex>, r: Outcome<DecodeError>)
    requires reader.Valid() && BexRows(t, band) && BexShaped(cs, blockType)
    modifies reader
    ensures reader.Valid() && unchanged(reader`buffer, reader`bits)
    ensures BandedExtension(reader.bits, old(reader.position), e, cs, band, blockType, t)
      == ExtensionStep(e', cs', reader.position, r)
  {
    cs' := cs;
    if blockType == STEREO {
      var mode, count := ReadBexHeader(reader, band, t);
      cs' := cs[1 := cs[1].(Mode := mode, ValueCount := count)];
    } else {
      reader.position := reader.position + 1;
    }
    e', cs', r := ReadExtensionData(reader, e, cs', band, blockType, t);
  }

  method ReadExtensionData(reader: BitReader, e: ExtensionFields, cs: seq<ChannelBex>, band: int,
                           blockType: int, t: CodecTables)
    returns (e': ExtensionFields, cs': seq<ChannelBex>, r: Outcome<DecodeError>)
    requires reader.Valid() && BexRows(t, band) && BexShaped(cs, blockType)
    requires blockType == STEREO ==>
      0 <= cs[1].Mode < 5 && 0 <= cs[1].ValueCount <= 4 && cs[1].ValueCount <= |t.BexDataLengths[cs[1].Mode][band]|
    modifies reader
    ensures reader.Valid() && unchanged(reader`buffer, reader`bits)
    ensures ExtensionData(reader.bits, old(reader.position), e, cs, band, blockType, t)
      == ExtensionStep(e', cs', reader.position, r)
  {
    var hasData := ReadFlag(reader);
    e' := e.(HasData := hasData);
    if !hasData {
      return e', cs, Pass;
    }
    var mode, count := ReadBexHeader(reader, band, t);
    var first := cs[0].(Mode := mode, ValueCount := count);
    var length := ReadField(reader, Unsigned(5));
    e' := e'.(DataLength := length);
    if length <= 0 {
      return e', cs[0 := first], Pass;
    }
    var end := reader.position + length;
    var values := ReadBexData(reader, first, band, t);
    cs' := cs[0 := first.(Values := values)];
    if blockType == STEREO {
      values := ReadBexData(reader, cs[1], band, t);
      cs' := cs'[1 := cs[1].(Values := values)];
    }
    r := if reader.position > end then Fail(INVALID) else Pass;
  }

  /** The extension fields of a block's channels, in channel order. */
  function BexStates(cs: seq<Channel>): (r: seq<ChannelBex>)
    reads cs
    ensures |r| == |cs| && forall i :: 0 <= i < |cs| ==> r[i] == BexOf(cs[i].State())
  {
    if cs == [] then [] else [BexOf(cs[0].State())] + BexStates(cs[1..])
  }

  /**
   * `readExtensionParams` on a block: the block's extension fields and each channel's mode,
   * value count and values become what the stage reads, and the reader ends where it ends.
   */
  method ReadExtensionParams(reader: BitReader, block: Block, t: CodecTables) returns (r: Outcome<DecodeError>)
    requires reader.Valid() && BexTables(t)
    requires |block.Channels| == BlockTypeToChannelCount(block.BlockType) && 1 <= |block.Channels|
    requires |block.Channels| == 2 ==> block.Channels[0] != block.Channels[1]
    requires forall i :: 0 <= i < |block.Channels| ==> |block.Channels[i].BexValues| == 4
    modifies reader, block, block.Channels
    ensures reader.Valid() && unchanged(reader`buffer, reader`bits)
    ensures var step := ExtensionParams(reader.bits, old(reader.position), ExtensionOf(old(block.State())),
        old(BexStates(block.Channels)), block.BandExtensionEnabled, block.QuantizationUnitCount, block.BlockType, t);
      && block.State() == WithExtension(old(block.State()), step.Block)
      && |step.Channels| == |block.Channels|
      && (forall i :: 0 <= i < |block.Channels| ==>
            block.Channels[i].State() == WithBex(old(block.Channels[i].State()), step.Channels[i]))
      && reader.position == step.Next && r == step.Result
  {
    var cs := BexStates(block.Channels);
    var e, cs', res := ReadExtensionFields(reader, ExtensionOf(block.State()), cs, block.BandExtensionEnabled,
      block.QuantizationUnitCount, block.BlockType, t);
    ExtensionParamsOutcome(reader.bits, old(reader.position), ExtensionOf(block.State()), cs, block.BandExtensionEnabled,
      block.QuantizationUnitCount, block.BlockType, t);
    StoreExtensionStep(block, e, cs');
    r := res;
  }

  method StoreExtensionStep(block: Block, e: ExtensionFields, cs: seq<ChannelBex>)
    requires |cs| == |block.Channels| && 1 <= |cs| <= 2
    requires |cs| == 2 ==> block.Channels[0] != block.Channels[1]
    modifies block, block.Channels
    ensures block.State() == WithExtension(old(block.State()), e)
    ensures forall i :: 0 <= i < |cs| ==> block.Channels[i].State() == WithBex(old(block.Channels[i].State()), cs[i])
  {
    StoreExtension(block, e);
    StoreBex(block.Channels[0], cs[0]);
    if |cs| == 2 {
      StoreBex(block.Channels[1], cs[1]);
    }
  }

  method StoreExtension(block: Block, e: ExtensionFields)
    modifies block
    ensures block.State() == WithExtension(old(block.State()), e)
  {
    block.HasExtensionData, block.BexMode, block.BexDataLength := e.HasData, e.Mode, e.DataLength;
  }

  method StoreBex(channel: Channel, b: ChannelBex)
    modifies channel
    ensures channel.State() == WithBex(old(channel.State()), b)
  {
    channel.BexMode, channel.BexValueCount, channel.BexValues := b.Mode, b.ValueCount, b.Values;
  }
}
