/**
 * The drivers of the block grammar: a frame is its blocks in order; a block is its two header
 * flags, then either the low-frequency-effects body or the standard one, then padding to the
 * next byte. The standard body runs the block-level stages and then, channel by channel, the
 * scale factors, the bit allocation and the coefficients; the LFE body codes two units with
 * 5-bit scale factors, a fixed precision and fixed-width signed coefficients.
 *
 * Each driver is proved to meet the preconditions of the stages it chains, and it keeps the
 * block `Decodable` whatever a stage throws, so that the next frame can run the stages again.
 */
module BlockUnpacking {
  import opened Wrappers
  import opened ChannelConfigs
  import opened Tables
  import opened RuntimeTables
  import opened BitReading
  import opened UnpackHuffman
  import opened DecodeState
  import opened Unpacking
  import SF = ScaleFactorReading
  import BA = BitAllocation
  import S = Spectra

  /** The number of units an LFE block codes. */
  const LFE_UNITS: nat := 2

  /**
   * What every stage of a block relies on: the block's own buffers at their sizes and its unit
   * counts within the thirty units, and its channels in their slots, each valid and owning
   * separate objects.
   */
  ghost predicate Decodable(block: Block)
    reads block, block.Channels
  {
    BlockReady(block) && ChannelsReady(block)
  }

  ghost predicate BlockReady(block: Block)
    reads block
  {
    && block.Config.SampleRateIndex < 16
    && |block.Gradient| == SCALE_FACTOR_SLOTS && |block.JointStereoSigns| == UNIT_SLOTS
    && UnitCounts(block.State())
  }

  ghost predicate ChannelsReady(block: Block)
    reads block.Channels
  {
    && |block.Channels| == BlockTypeToChannelCount(block.BlockType) && 1 <= |block.Channels|
    && (forall i :: 0 <= i < |block.Channels| ==>
          block.Channels[i].Valid() && block.Channels[i].ChannelIndex == i && block.Channels[i].Config == block.Config)
    && (|block.Channels| == 2 ==> block.Channels[0].Repr !! block.Channels[1].Repr)
  }

  /** The two channels of a decodable stereo block are two objects. */
  lemma DistinctChannels(block: Block)
    requires ChannelsReady(block)
    ensures |block.Channels| == 2 ==> block.Channels[0] != block.Channels[1]
  {
    if |block.Channels| == 2 {
      assert block.Channels[0] in block.Channels[0].Repr && block.Channels[1] in block.Channels[1].Repr;
    }
  }

  // ---------------------------------------------------------------------------------------------
  // The LFE body

  /** `calculateLfePrecision`'s precision: 8 when the block reuses its band parameters, 4 otherwise. */
  function LfePrecision(reuse: bool): (p: int)
    ensures p == 8 || p == 4
  {
    if reuse then 8 else 4
  }

  /** `s` is `s0` with its first n entries set to v. */
  predicate FilledFront(s0: seq<int>, s: seq<int>, n: nat, v: int)
  {
    && |s| == |s0| && n <= |s0|
    && forall k :: 0 <= k < |s0| ==> s[k] == if k < n then v else s0[k]
  }

  /** `decodeLfeScaleFactors`: the factors zeroed, then one 5-bit field for each of the first `units`. */
  function LfeScaleFactors(bits: seq<bool>, pos: nat, units: nat): (r: Fields)
    requires units <= SCALE_FACTOR_SLOTS
    ensures |r.Values| == SCALE_FACTOR_SLOTS
    ensures forall k :: units <= k < SCALE_FACTOR_SLOTS ==> r.Values[k] == 0
  {
    var run := Run(Unsigned(5), bits, pos, units);
    Fields(SF.Splice(ZeroFill(SCALE_FACTOR_SLOTS), 0, run.Values), run.End)
  }

  /** Each LFE scale factor is the 5-bit field at its place, so it lies in [0, 32), and the fields end 5 bits apiece on. */
  lemma LfeScaleFactorsRead(bits: seq<bool>, pos: nat, units: nat, k: nat)
    requires units <= SCALE_FACTOR_SLOTS && k < units
    ensures LfeScaleFactors(bits, pos, units).Values[k] == Read(Unsigned(5), bits, pos + k * 5).Value
    ensures 0 <= LfeScaleFactors(bits, pos, units).Values[k] < 32
    ensures LfeScaleFactors(bits, pos, units).End == pos + units * 5
  {
    FixedRun(Unsigned(5), bits, pos, units, k, pos + k * 5);
    FixedRunEnd(Unsigned(5), bits, pos, units);
    UnsignedField(bits, pos + k * 5, 5);
  }

  method DecodeLfeScaleFactors(reader: BitReader, block: Block, channel: Channel)
    requires reader.Valid() && channel.Valid() && 0 <= block.QuantizationUnitCount <= UNIT_SLOTS
    modifies reader, channel
    ensures reader.Valid() && unchanged(reader`buffer, reader`bits) && channel.Valid()
    ensures var sf := LfeScaleFactors(reader.bits, old(reader.position), block.QuantizationUnitCount);
      channel.State() == old(channel.State()).(ScaleFactors := sf.Values) && reader.position == sf.End
  {
    var s := ReadRunInto(reader, Unsigned(5), ZeroFill(SCALE_FACTOR_SLOTS), 0, block.QuantizationUnitCount);
    channel.ScaleFactors := s;
  }

  /** `calculateLfePrecision`: the first unit-count precisions become the LFE precision and their fine parts 0. */
  method CalculateLfePrecision(channel: Channel, block: Block)
    requires channel.Valid() && 0 <= block.QuantizationUnitCount <= UNIT_SLOTS
    modifies channel
    ensures channel.Valid()
    ensures channel.State() == old(channel.State()).(Precisions := channel.Precisions, PrecisionsFine := channel.PrecisionsFine)
    ensures FilledFront(old(channel.Precisions), channel.Precisions, block.QuantizationUnitCount, LfePrecision(block.ReuseBandParams))
    ensures FilledFront(old(channel.PrecisionsFine), channel.PrecisionsFine, block.QuantizationUnitCount, 0)
  {
    var precision := if block.ReuseBandParams then 8 else 4;
    var i: nat := 0;
    while i < block.QuantizationUnitCount
      invariant i <= block.QuantizationUnitCount && channel.Valid()
      invariant channel.State() == old(channel.State()).(Precisions := channel.Precisions, PrecisionsFine := channel.PrecisionsFine)
      invariant FilledFront(old(channel.Precisions), channel.Precisions, i, precision)
      invariant FilledFront(old(channel.PrecisionsFine), channel.PrecisionsFine, i, 0)
    {
      channel.Precisions := channel.Precisions[i := precision];
      channel.PrecisionsFine := channel.PrecisionsFine[i := 0];
      i := i + 1;
    }
  }

  /**
   * `readLfeSpectra`: the coefficients zeroed, then for every coded unit with a positive
   * precision p one (p + 1)-bit signed field per bin. This is the loop of `readSpectraFine`
   * run over the coarse precisions.
   */
  method ReadLfeSpectra(reader: BitReader, channel: Channel)
    requires reader.Valid() && channel.Valid() && S.CodedUnits(channel.CodedQuantUnits) <= UNIT_SLOTS
    modifies reader, channel
    ensures reader.Valid() && unchanged(reader`buffer, reader`bits) && channel.Valid()
    ensures var s := S.OverflowUnits(reader.bits, old(reader.position), old(channel.Precisions),
        S.CodedUnits(old(channel.CodedQuantUnits)));
      channel.State() == old(channel.State()).(QuantizedSpectra := s.Values) && reader.position == s.End
  {
    var spectrum := S.ReadOverflowUnits(reader, channel.Precisions, S.CodedUnits(channel.CodedQuantUnits));
    channel.QuantizedSpectra := spectrum;
  }

  /** Unit i is read on from where the first i end when its entry is positive. */
  lemma OverflowStep(bits: seq<bool>, pos: nat, ps: seq<int>, i: nat)
    requires i < |ps| && i < QUANT_UNIT_COUNT && ps[i] > 0
    ensures var before := S.OverflowUnits(bits, pos, ps, i);
      S.OverflowUnits(bits, pos, ps, i + 1) == S.FixedUnit(bits, before.End, before.Values, ps[i] + 1, i)
  {
  }

  /**
   * With both LFE precisions equal to p > 0 the coefficients end 4 (p + 1) bits on; which
   * fields land where is `LfeFirstUnit` and `LfeSecondUnit`.
   */
  lemma LfeCoefficientsEnd(bits: seq<bool>, pos: nat, ps: seq<int>, p: int)
    requires |ps| == UNIT_SLOTS && ps[0] == p && ps[1] == p && p > 0
    ensures S.OverflowUnits(bits, pos, ps, LFE_UNITS).End == pos + 4 * (p + 1)
  {
    LfeFirstUnit(bits, pos, ps, p);
    LfeSecondUnit(bits, pos, ps, p);
  }

  /** The second LFE unit: the first unit's bins, then two (p + 1)-bit fields spliced in at bin 2. */
  lemma LfeSecondUnit(bits: seq<bool>, pos: nat, ps: seq<int>, p: int)
    requires |ps| == UNIT_SLOTS && ps[1] == p && p > 0
    ensures var first := S.OverflowUnits(bits, pos, ps, 1);
      var run := Run(Signed(p + 1), bits, first.End, 2);
      && run.End == first.End + 2 * (p + 1)
      && S.OverflowUnits(bits, pos, ps, LFE_UNITS) == Fields(SF.Splice(first.Values, 2, run.Values), run.End)
  {
    var first := S.OverflowUnits(bits, pos, ps, 1);
    OverflowStep(bits, pos, ps, 1);
    UnitLayout(1);
    FixedRunEnd(Signed(p + 1), bits, first.End, 2);
  }

  /** The first LFE unit: two (p + 1)-bit fields from pos, every other bin zero. */
  lemma LfeFirstUnit(bits: seq<bool>, pos: nat, ps: seq<int>, p: int)
    requires |ps| == UNIT_SLOTS && ps[0] == p && p > 0
    ensures var r := S.OverflowUnits(bits, pos, ps, 1);
      && r.End == pos + 2 * (p + 1)
      && r.Values[..2] == Run(Signed(p + 1), bits, pos, 2).Values
      && forall j :: 2 <= j < SUBBAND_COUNT ==> r.Values[j] == 0
  {
    OverflowStep(bits, pos, ps, 0);
    UnitLayout(0);
    FixedRunEnd(Signed(p + 1), bits, pos, 2);
  }

  /**
   * `unpackLfeBlock`: the block codes two units; the first channel reads their 5-bit scale
   * factors, takes the fixed precision with no fine part, codes both units and reads their
   * coefficients. Nothing else of the block or the channel changes.
   */
  method UnpackLfeBlock(reader: BitReader, block: Block)
    requires reader.Valid() && 1 <= |block.Channels| && block.Channels[0].Valid()
    modifies reader, block, block.Channels[0]
    ensures reader.Valid() && unchanged(reader`buffer, reader`bits) && block.Channels[0].Valid()
    ensures block.State() == old(block.State()).(QuantizationUnitCount := LFE_UNITS)
    ensures LfeChannelRead(old(block.Channels[0].State()), block.Channels[0].State(), reader.bits,
      old(reader.position), reader.position, LFE_UNITS, block.ReuseBandParams)
  {
    block.QuantizationUnitCount := 2;
    UnpackLfeChannel(reader, block, block.Channels[0]);
  }

  /**
   * The LFE channel after the body: scale factors, precisions and fine precisions as the body
   * sets them, `units` coded units, and the coefficients that follow the scale factors.
   */
  ghost predicate LfeChannelRead(c0: ChannelState, c: ChannelState, bits: seq<bool>, pos: nat, end: nat, units: nat, reuse: bool)
    requires units <= UNIT_SLOTS
  {
    var sf := LfeScaleFactors(bits, pos, units);
    && |c.Precisions| == |c0.Precisions| && units <= |c.Precisions|
    && var coefficients := S.OverflowUnits(bits, sf.End, c.Precisions, units);
    && c == c0.(ScaleFactors := sf.Values, Precisions := c.Precisions, PrecisionsFine := c.PrecisionsFine,
                CodedQuantUnits := Some(units as int), QuantizedSpectra := coefficients.Values)
    && FilledFront(c0.Precisions, c.Precisions, units, LfePrecision(reuse))
    && FilledFront(c0.PrecisionsFine, c.PrecisionsFine, units, 0)
    && end == coefficients.End
  }

  /** The channel part of `unpackLfeBlock`, over the block's unit count. */
  method UnpackLfeChannel(reader: BitReader, block: Block, channel: Channel)
    requires reader.Valid() && channel.Valid() && 0 <= block.QuantizationUnitCount <= UNIT_SLOTS
    modifies reader, channel
    ensures reader.Valid() && unchanged(reader`buffer, reader`bits) && channel.Valid()
    ensures LfeChannelRead(old(channel.State()), channel.State(), reader.bits, old(reader.position), reader.position,
      block.QuantizationUnitCount, block.ReuseBandParams)
  {
    DecodeLfeScaleFactors(reader, block, channel);
    CalculateLfePrecision(channel, block);
    channel.CodedQuantUnits := Some(block.QuantizationUnitCount);
    ReadLfeSpectra(reader, channel);
  }

  /**
   * The whole LFE body on the bit string: ten bits of scale factors, then four signed fields of
   * 9 bits when the block reuses its band parameters and of 5 bits otherwise.
   */
  lemma LfeBodyLength(bits: seq<bool>, pos: nat, ps: seq<int>, reuse: bool)
    requires |ps| == UNIT_SLOTS && ps[0] == LfePrecision(reuse) && ps[1] == LfePrecision(reuse)
    ensures var sf := LfeScaleFactors(bits, pos, LFE_UNITS);
      S.OverflowUnits(bits, sf.End, ps, LFE_UNITS).End == pos + 10 + 4 * (LfePrecision(reuse) + 1)
  {
    LfeScaleFactorsRead(bits, pos, LFE_UNITS, 0);
    LfeCoefficientsEnd(bits, pos + 10, ps, LfePrecision(reuse));
  }

  // ---------------------------------------------------------------------------------------------
  // The block-level stages of the standard body

  /** The band stage: skipped, keeping the layout, when the block reuses its band parameters. */
  function BandStage(bits: seq<bool>, pos: nat, s: BlockState, blockType: int, config: Config.Atrac9Config): (r: BlockStep)
    requires config.SampleRateIndex < 16 && UnitCounts(s)
    ensures UnitCounts(r.Block) && r.Block == WithLayout(s, LayoutOf(r.Block))
    ensures s.ReuseBandParams ==> r == BlockStep(s, pos, Pass)
  {
    if s.ReuseBandParams then BlockStep(s, pos, Pass)
    else
      var band := BandParams(bits, pos, LayoutOf(s), blockType, config);
      BandParamsUnitCounts(bits, pos, s, blockType, config);
      BlockStep(WithLayout(s, band.Layout), band.Next, band.Result)
  }

  /** The gradient stage: the header, its check, and on pass the curve drawn from it. */
  function GradientStage(bits: seq<bool>, pos: nat, s: BlockState): (r: BlockStep)
    ensures |r.Block.Gradient| == |s.Gradient|
    ensures LayoutOf(r.Block) == LayoutOf(s) && r.Block.JointStereoSigns == s.JointStereoSigns
    ensures r.Block.QuantizationUnitsPrev == s.QuantizationUnitsPrev
  {
    var read := GradientFields(bits, pos);
    var headed := WithGradientHeader(s, read.Header);
    var check := GradientCheck(read.Header, s.QuantizationUnitCount);
    if check.Fail? then BlockStep(headed, read.Next, check)
    else
      AcceptedGradientDrawable(s, read.Header);
      BlockStep(headed.(Gradient := BA.Gradient(headed)), read.Next, Pass)
  }

  /**
   * The stages of `unpackStandardBlock` before the extension parameters: band parameters unless
   * reused, the gradient header and its curve, and the stereo parameters, each on from where the
   * one before stops; a stage that throws ends it with its own fields in place.
   */
  ghost function HeaderStages(bits: seq<bool>, pos: nat, s: BlockState, blockType: int, config: Config.Atrac9Config)
    : (r: BlockStep)
    requires config.SampleRateIndex < 16 && UnitCounts(s) && |s.JointStereoSigns| == UNIT_SLOTS
  {
    var band := BandStage(bits, pos, s, blockType, config);
    if band.Result.Fail? then band
    else
      var gradient := GradientStage(bits, band.Next, band.Block);
      if gradient.Result.Fail? then gradient
      else
        var stereo := StereoParams(bits, gradient.Next, gradient.Block, blockType);
        BlockStep(WithStereo(gradient.Block, stereo.Stereo), stereo.Next, Pass)
  }

  /**
   * The header stages keep what the later stages rely on: unit counts within the thirty units,
   * thirty signs, the gradient's size and the previous frame's unit count. A failure is the
   * invalid-data error of a band or gradient check.
   */
  lemma HeaderStagesShape(bits: seq<bool>, pos: nat, s: BlockState, blockType: int, config: Config.Atrac9Config)
    requires config.SampleRateIndex < 16 && UnitCounts(s) && |s.JointStereoSigns| == UNIT_SLOTS
    ensures var r := HeaderStages(bits, pos, s, blockType, config);
      && UnitCounts(r.Block) && |r.Block.JointStereoSigns| == UNIT_SLOTS && |r.Block.Gradient| == |s.Gradient|
      && r.Block.QuantizationUnitsPrev == s.QuantizationUnitsPrev
      && (r.Result.Fail? ==> r.Result.error == INVALID)
  {
    var band := BandStage(bits, pos, s, blockType, config);
    if band.Result.Pass? {
      var gradient := GradientStage(bits, band.Next, band.Block);
      if gradient.Result.Pass? {
        StereoParamsSigns(bits, gradient.Next, gradient.Block, blockType, 0);
      }
    } else {
      BandStageFails(bits, pos, s, blockType, config);
    }
  }

  /** The band stage fails only with the invalid-data error. */
  lemma BandStageFails(bits: seq<bool>, pos: nat, s: BlockState, blockType: int, config: Config.Atrac9Config)
    requires config.SampleRateIndex < 16 && UnitCounts(s)
    ensures var r := BandStage(bits, pos, s, blockType, config); r.Result.Fail? ==> r.Result.error == INVALID
  {
    if !s.ReuseBandParams {
      BandParamsChecks(bits, pos, LayoutOf(s), blockType, config);
    }
  }

  method ReadBandStage(reader: BitReader, block: Block) returns (r: Outcome<DecodeError>)
    requires reader.Valid() && block.Config.SampleRateIndex < 16 && UnitCounts(block.State())
    modifies reader, block
    ensures reader.Valid() && unchanged(reader`buffer, reader`bits)
    ensures var step := BandStage(reader.bits, old(reader.position), old(block.State()), block.BlockType, block.Config);
      block.State() == step.Block && reader.position == step.Next && r == step.Result
  {
    r := Pass;
    if !block.ReuseBandParams {
      r := ReadBandParams(reader, block);
    }
  }

  /** `readGradientParams` followed by `createGradient`, which runs only when the header is accepted. */
  method ReadGradientStage(reader: BitReader, block: Block) returns (r: Outcome<DecodeError>)
    requires reader.Valid()
    modifies reader, block
    ensures reader.Valid() && unchanged(reader`buffer, reader`bits)
    ensures var step := GradientStage(reader.bits, old(reader.position), old(block.State()));
      block.State() == step.Block && reader.position == step.Next && r == step.Result
  {
    ghost var s := block.State();
    r := ReadGradientParams(reader, block);
    if r.Pass? {
      AcceptedGradientDrawable(s, GradientFields(reader.bits, old(reader.position)).Header);
      BA.CreateGradient(block);
    }
  }

  /** The header stages on the heap: the block's fields become those of `HeaderStages`. */
  method ReadHeaderStages(reader: BitReader, block: Block) returns (r: Outcome<DecodeError>)
    requires reader.Valid() && block.Config.SampleRateIndex < 16 && UnitCounts(block.State())
    requires |block.JointStereoSigns| == UNIT_SLOTS
    modifies reader, block
    ensures reader.Valid() && unchanged(reader`buffer, reader`bits)
    ensures var step := HeaderStages(reader.bits, old(reader.position), old(block.State()), block.BlockType, block.Config);
      block.State() == step.Block && reader.position == step.Next && r == step.Result
  {
    r := ReadBandStage(reader, block);
    if r.Fail? {
      return;
    }
    r := ReadGradientStage(reader, block);
    if r.Fail? {
      return;
    }
    ReadStereoParams(reader, block);
  }

  // ---------------------------------------------------------------------------------------------
  // One channel of the standard body

  /** A channel stage: the channel's new fields, where the reader stops, and whether it throws. */
  datatype ChannelStep = ChannelStep(State: ChannelState, Next: nat, Result: Outcome<DecodeError>)

  /** The buffer sizes of a valid channel. */
  predicate ChannelSized(c: ChannelState)
  {
    && |c.ScaleFactors| == SCALE_FACTOR_SLOTS && |c.ScaleFactorsPrev| == SCALE_FACTOR_SLOTS
    && |c.Precisions| == UNIT_SLOTS && |c.PrecisionsFine| == UNIT_SLOTS
    && |c.PrecisionMask| == UNIT_SLOTS && |c.CodebookSet| == UNIT_SLOTS
    && |c.SpectraValuesBuffer| == 16
    && |c.QuantizedSpectra| == BIN_SLOTS && |c.QuantizedSpectraFine| == BIN_SLOTS
    && |c.BexValues| == 4 && |c.BexScales| >= 6
  }

  /** `updateCodedUnits`: the primary channel codes every unit, the other stops at the stereo unit. */
  function CodedUnitsFor(primary: bool, units: int, stereoUnit: Option<int>): Option<int>
  {
    if primary then Some(units) else stereoUnit
  }

  /** `ScaleFactors.read` on a channel state: the mode and the factors always, the copy into the previous ones on pass. */
  ghost function ScaleFactorStep(bits: seq<bool>, pos: nat, c: ChannelState, ctx: SF.Context, t: CodecTables): (r: ChannelStep)
    requires ScaleFactorTables(t) && SF.ContextShaped(ctx) && ChannelSized(c)
    ensures ChannelSized(r.State)
  {
    var expected := SF.ScaleFactorsRead(bits, pos, ctx, t);
    var attempt := SF.Attempt(bits, pos, ctx, t);
    ChannelStep(
      c.(ScaleFactorCodingMode := Read(Unsigned(2), bits, pos).Value, ScaleFactors := attempt.Values,
         ScaleFactorsPrev := if expected.Success? then attempt.Values else c.ScaleFactorsPrev),
      attempt.End,
      if expected.Success? then Pass else Fail(expected.error))
  }

  /** `calculateMask`, `calculatePrecisions` and `calculateSpectrumCodebookIndex`, in that order. */
  function Allocated(c: ChannelState, b: BlockState, highSampleRate: bool): (r: ChannelState)
    requires ChannelSized(c) && |b.Gradient| == SCALE_FACTOR_SLOTS && 0 <= b.QuantizationUnitCount <= UNIT_SLOTS
    requires c.CodedQuantUnits.Some? ==> c.CodedQuantUnits.value <= UNIT_SLOTS
    ensures ChannelSized(r)
  {
    var masked := c.(PrecisionMask := BA.Mask(c.ScaleFactors, b.QuantizationUnitCount));
    var precise := masked.(Precisions := BA.Precisions(masked, b), PrecisionsFine := BA.PrecisionsFine(masked, b));
    precise.(CodebookSet := S.CodebookSelection(precise.ScaleFactors, precise.CodedQuantUnits, highSampleRate))
  }

  /** `readSpectra`, then `readSpectraFine` unless the first threw. */
  ghost function CoefficientStep(bits: seq<bool>, pos: nat, c: ChannelState, highSampleRate: bool, t: CodecTables)
    : (r: ChannelStep)
    requires SpectrumTables(t) && ChannelSized(c) && S.CodedUnits(c.CodedQuantUnits) <= UNIT_SLOTS
    ensures ChannelSized(r.State)
  {
    var units := S.CodedUnits(c.CodedQuantUnits);
    var step := S.SpectraUnits(bits, pos, c, highSampleRate, t, units);
    var read := c.(QuantizedSpectra := step.Spectrum, SpectraValuesBuffer := step.Buffer);
    if step.Result.Fail? then ChannelStep(read, step.Next, step.Result)
    else
      var fine := S.OverflowUnits(bits, step.Next, read.PrecisionsFine, units);
      ChannelStep(read.(QuantizedSpectraFine := fine.Values), fine.End, Pass)
  }

  /**
   * One pass of the channel loop of `unpackStandardBlock`: the coded units, the scale factors
   * against `ctx` (the block and the factors read so far), then unless those threw the bit
   * allocation and the coefficients.
   */
  ghost function ChannelPass(bits: seq<bool>, pos: nat, c: ChannelState, b: BlockState, ctx: SF.Context, primary: bool,
                             highSampleRate: bool, t: CodecTables): (r: ChannelStep)
    requires ScaleFactorTables(t) && SpectrumTables(t) && SF.ContextShaped(ctx) && ChannelSized(c)
    requires UnitCounts(b) && |b.Gradient| == SCALE_FACTOR_SLOTS
    ensures ChannelSized(r.State)
  {
    var factors := ScaleFactorStep(bits, pos, c.(CodedQuantUnits := CodedUnitsFor(primary, b.QuantizationUnitCount, b.StereoQuantizationUnit)), ctx, t);
    if factors.Result.Fail? then factors
    else CoefficientStep(bits, factors.Next, Allocated(factors.State, b, highSampleRate), highSampleRate, t)
  }

  /**
   * What a channel holds once its pass succeeds, in a block of `units` coded units: what
   * `ChannelCoded` says, and the mask and the codebook choice computed from its factors.
   */
  ghost predicate ChannelDecoded(c: ChannelState, coded: Option<int>, units: int, extensionUnit: nat, highSampleRate: bool)
    requires ChannelSized(c) && extensionUnit <= UNIT_SLOTS && 0 <= units <= UNIT_SLOTS
    requires coded.Some? ==> coded.value <= UNIT_SLOTS
  {
    && ChannelCoded(c, coded, extensionUnit)
    && c.PrecisionMask == BA.Mask(c.ScaleFactors, units)
    && c.CodebookSet == S.CodebookSelection(c.ScaleFactors, c.CodedQuantUnits, highSampleRate)
  }

  /** The coded units of the channel's role, and factors within range that are also the previous frame's from now on. */
  ghost predicate ChannelCoded(c: ChannelState, coded: Option<int>, extensionUnit: nat)
    requires ChannelSized(c) && extensionUnit <= UNIT_SLOTS
  {
    && c.CodedQuantUnits == coded
    && c.ScaleFactorsPrev == c.ScaleFactors && SF.InRange(c.ScaleFactors, extensionUnit)
  }

  /** A pass that succeeds leaves the channel decoded; one that fails fails in the factors or the coefficients. */
  lemma ChannelPassDecoded(bits: seq<bool>, pos: nat, c: ChannelState, b: BlockState, ctx: SF.Context, primary: bool,
                           highSampleRate: bool, t: CodecTables)
    requires ScaleFactorTables(t) && SpectrumTables(t) && SF.ContextShaped(ctx) && ChannelSized(c)
    requires UnitCounts(b) && |b.Gradient| == SCALE_FACTOR_SLOTS
    ensures var r := ChannelPass(bits, pos, c, b, ctx, primary, highSampleRate, t);
      && (r.Result.Pass? ==> ChannelDecoded(r.State, CodedUnitsFor(primary, b.QuantizationUnitCount, b.StereoQuantizationUnit),
            b.QuantizationUnitCount, ctx.ExtensionUnit, highSampleRate))
      && (r.Result.Fail? <==>
            SF.ScaleFactorsRead(bits, pos, ctx, t).Failure?
            || S.SpectraUnits(bits, ScaleFactorStep(bits, pos, c.(CodedQuantUnits := CodedUnitsFor(primary, b.QuantizationUnitCount, b.StereoQuantizationUnit)), ctx, t).Next,
                 Allocated(ScaleFactorStep(bits, pos, c.(CodedQuantUnits := CodedUnitsFor(primary, b.QuantizationUnitCount, b.StereoQuantizationUnit)), ctx, t).State, b, highSampleRate),
                 highSampleRate, t, S.CodedUnits(CodedUnitsFor(primary, b.QuantizationUnitCount, b.StereoQuantizationUnit))).Result.Fail?)
  {
  }

  /** `updateCodedUnits` and `ScaleFactors.read`, on the heap. */
  method ReadChannelFactors(reader: BitReader, block: Block, channel: Channel, t: CodecTables) returns (r: Outcome<DecodeError>)
    requires reader.Valid() && ScaleFactorTables(t) && channel.Valid() && UnitCounts(block.State())
    requires 0 < |block.Channels| && |block.Channels[0].ScaleFactors| == SCALE_FACTOR_SLOTS
    modifies reader, channel
    ensures reader.Valid() && unchanged(reader`buffer, reader`bits) && channel.Valid()
    ensures channel.CodedQuantUnits == CodedUnitsFor(channel.IsPrimary(block), block.QuantizationUnitCount, block.StereoQuantizationUnit)
    ensures var step := ScaleFactorStep(reader.bits, old(reader.position),
        old(channel.State()).(CodedQuantUnits := CodedUnitsFor(channel.IsPrimary(block), block.QuantizationUnitCount, block.StereoQuantizationUnit)),
        old(SF.ContextOf(block, channel)), t);
      channel.State() == step.State && reader.position == step.Next && r == step.Result
  {
    channel.UpdateCodedUnits(block);
    r := SF.ReadScaleFactors(reader, block, channel, t);
  }

  /** The bit allocation of a channel, on the heap. */
  method AllocateChannel(channel: Channel, block: Block)
    requires channel.Valid() && UnitCounts(block.State()) && |block.Gradient| == SCALE_FACTOR_SLOTS
    requires channel.CodedQuantUnits.Some? ==> channel.CodedQuantUnits.value <= UNIT_SLOTS
    modifies channel
    ensures channel.Valid()
    ensures channel.State() == Allocated(old(channel.State()), block.State(), channel.Config.HighSampleRate)
  {
    BA.CalculateMask(channel, block);
    BA.CalculatePrecisions(channel, block);
    S.CalculateSpectrumCodebookIndex(channel);
  }

  /** `readSpectra` and `readSpectraFine`, on the heap. */
  method ReadChannelCoefficients(reader: BitReader, channel: Channel, t: CodecTables) returns (r: Outcome<DecodeError>)
    requires reader.Valid() && SpectrumTables(t) && channel.Valid() && S.CodedUnits(channel.CodedQuantUnits) <= UNIT_SLOTS
    modifies reader, channel
    ensures reader.Valid() && unchanged(reader`buffer, reader`bits) && channel.Valid()
    ensures var step := CoefficientStep(reader.bits, old(reader.position), old(channel.State()), channel.Config.HighSampleRate, t);
      channel.State() == step.State && reader.position == step.Next && r == step.Result
  {
    r := S.ReadSpectra(reader, channel, t);
    if r.Pass? {
      S.ReadSpectraFine(reader, channel);
    }
  }

  /** One pass of the channel loop on the heap: the channel's fields become those of `ChannelPass`. */
  method UnpackChannel(reader: BitReader, block: Block, channel: Channel, t: CodecTables) returns (r: Outcome<DecodeError>)
    requires reader.Valid() && ScaleFactorTables(t) && SpectrumTables(t) && channel.Valid()
    requires UnitCounts(block.State()) && |block.Gradient| == SCALE_FACTOR_SLOTS
    requires 0 < |block.Channels| && |block.Channels[0].ScaleFactors| == SCALE_FACTOR_SLOTS
    modifies reader, channel
    ensures reader.Valid() && unchanged(reader`buffer, reader`bits) && channel.Valid()
    ensures var step := ChannelPass(reader.bits, old(reader.position), old(channel.State()), block.State(),
        old(SF.ContextOf(block, channel)), channel.IsPrimary(block), channel.Config.HighSampleRate, t);
      channel.State() == step.State && reader.position == step.Next && r == step.Result
  {
    r := ReadChannelFactors(reader, block, channel, t);
    if r.Pass? {
      r := FinishChannel(reader, block, channel, t);
    }
  }

  /** The rest of a pass once the scale factors are read: the bit allocation, then the coefficients. */
  method FinishChannel(reader: BitReader, block: Block, channel: Channel, t: CodecTables) returns (r: Outcome<DecodeError>)
    requires reader.Valid() && SpectrumTables(t) && channel.Valid()
    requires UnitCounts(block.State()) && |block.Gradient| == SCALE_FACTOR_SLOTS
    requires channel.CodedQuantUnits.Some? ==> 0 <= channel.CodedQuantUnits.value <= UNIT_SLOTS
    modifies reader, channel
    ensures reader.Valid() && unchanged(reader`buffer, reader`bits) && channel.Valid()
    ensures var step := CoefficientStep(reader.bits, old(reader.position),
        Allocated(old(channel.State()), block.State(), channel.Config.HighSampleRate), channel.Config.HighSampleRate, t);
      channel.State() == step.State && reader.position == step.Next && r == step.Result
  {
    AllocateChannel(channel, block);
    r := ReadChannelCoefficients(reader, channel, t);
  }

  // ---------------------------------------------------------------------------------------------
  // The channel loop

  /** The states of a block's channels, in slot order. */
  function ChannelStates(cs: seq<Channel>): (r: seq<ChannelState>)
    reads cs
    ensures |r| == |cs| && forall i :: 0 <= i < |cs| ==> r[i] == cs[i].State()
  {
    seq(|cs|, i requires 0 <= i < |cs| reads cs => cs[i].State())
  }

  /**
   * The scale-factor context of channel i on values: the block's fields, the channel's previous
   * factors and the first channel's factors as they stand when the channel's turn comes.
   */
  function ChannelContext(b: BlockState, i: nat, c: ChannelState, primary: seq<int>): (ctx: SF.Context)
    requires 0 <= b.ExtensionUnit && 0 <= b.QuantizationUnitsPrev
    ensures ctx.ChannelIndex == i && ctx.Previous == c.ScaleFactorsPrev && ctx.Primary == primary
  {
    SF.Context(i, b.FirstInSuperframe, b.ExtensionUnit, c.ScaleFactorsPrev, b.QuantizationUnitsPrev, primary)
  }

  /** The channel loop's channel states, where the reader stops, and whether a pass threw. */
  datatype ChannelsStep = ChannelsStep(Channels: seq<ChannelState>, Next: nat, Result: Outcome<DecodeError>)

  /** Channel i's pass, against the block and the first channel's factors as they stand in `cs`. */
  ghost function PassAt(bits: seq<bool>, pos: nat, b: BlockState, cs: seq<ChannelState>, i: nat,
                        highSampleRate: bool, t: CodecTables): (r: ChannelStep)
    requires ScaleFactorTables(t) && SpectrumTables(t) && UnitCounts(b) && |b.Gradient| == SCALE_FACTOR_SLOTS
    requires i < |cs| && ChannelSized(cs[i]) && ChannelSized(cs[0])
    ensures ChannelSized(r.State)
  {
    ChannelPass(bits, pos, cs[i], b, ChannelContext(b, i, cs[i], cs[0].ScaleFactors),
      b.PrimaryChannelIndex == Some(i as int), highSampleRate, t)
  }

  /**
   * The channel loop of `unpackStandardBlock` on values, from channel i on: channel i's pass,
   * then the next channel unless the pass threw. Channel 1's pass sees the factors channel 0
   * has just read.
   */
  ghost function ChannelsFrom(bits: seq<bool>, pos: nat, b: BlockState, cs: seq<ChannelState>, i: nat,
                              highSampleRate: bool, t: CodecTables): (r: ChannelsStep)
    requires ScaleFactorTables(t) && SpectrumTables(t) && UnitCounts(b) && |b.Gradient| == SCALE_FACTOR_SLOTS
    requires 1 <= |cs| && i <= |cs| && forall k :: 0 <= k < |cs| ==> ChannelSized(cs[k])
    ensures |r.Channels| == |cs|
    decreases |cs| - i
  {
    if i == |cs| then ChannelsStep(cs, pos, Pass)
    else
      var step := PassAt(bits, pos, b, cs, i, highSampleRate, t);
      if step.Result.Fail? then ChannelsStep(cs[i := step.State], step.Next, step.Result)
      else ChannelsFrom(bits, step.Next, b, cs[i := step.State], i + 1, highSampleRate, t)
  }

  /** One turn of the channel loop: channel i's pass, then the rest unless it threw. */
  lemma ChannelsFromStep(bits: seq<bool>, pos: nat, b: BlockState, cs: seq<ChannelState>, i: nat,
                         highSampleRate: bool, t: CodecTables)
    requires ScaleFactorTables(t) && SpectrumTables(t) && UnitCounts(b) && |b.Gradient| == SCALE_FACTOR_SLOTS
    requires 1 <= |cs| && i < |cs| && forall k :: 0 <= k < |cs| ==> ChannelSized(cs[k])
    ensures var step := PassAt(bits, pos, b, cs, i, highSampleRate, t);
      ChannelsFrom(bits, pos, b, cs, i, highSampleRate, t)
         == if step.Result.Fail? then ChannelsStep(cs[i := step.State], step.Next, step.Result)
            else ChannelsFrom(bits, step.Next, b, cs[i := step.State], i + 1, highSampleRate, t)
  {
    hide PassAt;
    var step := PassAt(bits, pos, b, cs, i, highSampleRate, t);
    SizedUpdate(cs, i, step.State, cs[i := step.State]);
  }

  /** Past the last channel the loop has nothing left to do. */
  lemma ChannelsFromDone(bits: seq<bool>, pos: nat, b: BlockState, cs: seq<ChannelState>,
                         highSampleRate: bool, t: CodecTables)
    requires ScaleFactorTables(t) && SpectrumTables(t) && UnitCounts(b) && |b.Gradient| == SCALE_FACTOR_SLOTS
    requires 1 <= |cs| && forall k :: 0 <= k < |cs| ==> ChannelSized(cs[k])
    ensures ChannelsFrom(bits, pos, b, cs, |cs|, highSampleRate, t) == ChannelsStep(cs, pos, Pass)
  {
  }

  /** Channel i of a block after its pass: its coded units, mask, codebooks and factors (`ChannelDecoded`). */
  ghost predicate DecodedAs(c: ChannelState, b: BlockState, i: nat, highSampleRate: bool)
    requires ChannelSized(c) && UnitCounts(b)
  {
    ChannelDecoded(c, CodedUnitsFor(b.PrimaryChannelIndex == Some(i as int), b.QuantizationUnitCount, b.StereoQuantizationUnit),
      b.QuantizationUnitCount, b.ExtensionUnit, highSampleRate)
  }

  /** The loop leaves channels before i as they are and keeps every channel's buffer sizes. */
  lemma {:induction false} ChannelsFromKeeps(bits: seq<bool>, pos: nat, b: BlockState, cs: seq<ChannelState>, i: nat,
                                             highSampleRate: bool, t: CodecTables)
    requires ScaleFactorTables(t) && SpectrumTables(t) && UnitCounts(b) && |b.Gradient| == SCALE_FACTOR_SLOTS
    requires 1 <= |cs| && i <= |cs| && forall k :: 0 <= k < |cs| ==> ChannelSized(cs[k])
    ensures var r := ChannelsFrom(bits, pos, b, cs, i, highSampleRate, t);
      && (forall k :: 0 <= k < |cs| ==> ChannelSized(r.Channels[k]))
      && (forall k :: 0 <= k < i ==> r.Channels[k] == cs[k])
    decreases |cs| - i
  {
    hide *;
    if i < |cs| {
      var step := PassAt(bits, pos, b, cs, i, highSampleRate, t);
      ChannelsFromStep(bits, pos, b, cs, i, highSampleRate, t);
      SizedUpdate(cs, i, step.State, cs[i := step.State]);
      if step.Result.Pass? {
        ChannelsFromKeeps(bits, step.Next, b, cs[i := step.State], i + 1, highSampleRate, t);
      }
    } else {
      ChannelsFromDone(bits, pos, b, cs, highSampleRate, t);
    }
  }

  /** Replacing one channel state by one of the same sizes keeps every state's sizes. */
  lemma SizedUpdate(cs: seq<ChannelState>, i: nat, c: ChannelState, updated: seq<ChannelState>)
    requires i < |cs| && ChannelSized(c) && forall k :: 0 <= k < |cs| ==> ChannelSized(cs[k])
    requires updated == cs[i := c]
    ensures forall k :: 0 <= k < |updated| ==> ChannelSized(updated[k])
  {
  }

  /** When no pass throws, the loop leaves every channel from i on decoded. */
  lemma {:induction false} ChannelsFromDecoded(bits: seq<bool>, pos: nat, b: BlockState, cs: seq<ChannelState>, i: nat,
                                               highSampleRate: bool, t: CodecTables)
    requires ScaleFactorTables(t) && SpectrumTables(t) && UnitCounts(b) && |b.Gradient| == SCALE_FACTOR_SLOTS
    requires 1 <= |cs| && i <= |cs| && forall k :: 0 <= k < |cs| ==> ChannelSized(cs[k])
    ensures var r := ChannelsFrom(bits, pos, b, cs, i, highSampleRate, t);
      r.Result.Pass? ==> forall k :: i <= k < |cs| ==> ChannelSized(r.Channels[k]) && DecodedAs(r.Channels[k], b, k, highSampleRate)
    decreases |cs| - i
  {
    hide *;
    if i < |cs| {
      var step := PassAt(bits, pos, b, cs, i, highSampleRate, t);
      ChannelsFromStep(bits, pos, b, cs, i, highSampleRate, t);
      if step.Result.Pass? {
        PassAtDecoded(bits, pos, b, cs, i, highSampleRate, t);
        SizedUpdate(cs, i, step.State, cs[i := step.State]);
        ChannelsFromKeeps(bits, step.Next, b, cs[i := step.State], i + 1, highSampleRate, t);
        ChannelsFromDecoded(bits, step.Next, b, cs[i := step.State], i + 1, highSampleRate, t);
      }
    }
  }

  /** A pass of channel i that does not throw leaves it decoded. */
  lemma PassAtDecoded(bits: seq<bool>, pos: nat, b: BlockState, cs: seq<ChannelState>, i: nat,
                      highSampleRate: bool, t: CodecTables)
    requires ScaleFactorTables(t) && SpectrumTables(t) && UnitCounts(b) && |b.Gradient| == SCALE_FACTOR_SLOTS
    requires i < |cs| && ChannelSized(cs[i]) && ChannelSized(cs[0])
    ensures var step := PassAt(bits, pos, b, cs, i, highSampleRate, t);
      step.Result.Pass? ==> DecodedAs(step.State, b, i, highSampleRate)
  {
    ChannelPassDecoded(bits, pos, cs[i], b, ChannelContext(b, i, cs[i], cs[0].ScaleFactors),
      b.PrimaryChannelIndex == Some(i as int), highSampleRate, t);
  }

  /** Channel i's pass on the heap, as `PassAt` says. */
  method UnpackChannelAt(reader: BitReader, block: Block, i: nat, t: CodecTables) returns (r: Outcome<DecodeError>)
    requires reader.Valid() && ScaleFactorTables(t) && SpectrumTables(t) && BlockReady(block) && ChannelsReady(block)
    requires i < |block.Channels|
    modifies reader, block.Channels[i]
    ensures reader.Valid() && unchanged(reader`buffer, reader`bits) && ChannelsReady(block)
    ensures var step := PassAt(reader.bits, old(reader.position), block.State(), old(ChannelStates(block.Channels)), i,
        block.Config.HighSampleRate, t);
      && ChannelStates(block.Channels) == old(ChannelStates(block.Channels))[i := step.State]
      && reader.position == step.Next && r == step.Result
  {
    hide *;
    ReadyParts(block);
    r := PassOnChannel(reader, block, i, t);
    PartsReady(block);
  }

  /** What the channel loop asks of a decodable block, on values. */
  lemma ReadyForLoop(block: Block)
    requires BlockReady(block) && ChannelsReady(block)
    ensures UnitCounts(block.State()) && |block.State().Gradient| == SCALE_FACTOR_SLOTS
    ensures 1 <= |ChannelStates(block.Channels)|
    ensures forall k :: 0 <= k < |block.Channels| ==> ChannelSized(ChannelStates(block.Channels)[k])
  {
  }

  /** What `ChannelsReady` says, one fact at a time. */
  lemma ReadyParts(block: Block)
    requires ChannelsReady(block)
    ensures |block.Channels| == BlockTypeToChannelCount(block.BlockType) && 1 <= |block.Channels| <= 2
    ensures forall k :: 0 <= k < |block.Channels| ==>
      block.Channels[k].Valid() && block.Channels[k].ChannelIndex == k && block.Channels[k].Config == block.Config
    ensures |block.Channels| == 2 ==> block.Channels[0].Repr !! block.Channels[1].Repr && block.Channels[0] != block.Channels[1]
  {
    if |block.Channels| == 2 {
      DistinctChannels(block);
    }
  }

  /** `ChannelsReady` from its facts. */
  lemma PartsReady(block: Block)
    requires |block.Channels| == BlockTypeToChannelCount(block.BlockType) && 1 <= |block.Channels|
    requires forall k :: 0 <= k < |block.Channels| ==>
      block.Channels[k].Valid() && block.Channels[k].ChannelIndex == k && block.Channels[k].Config == block.Config
    requires |block.Channels| == 2 ==> block.Channels[0].Repr !! block.Channels[1].Repr
    ensures ChannelsReady(block)
  {
  }

  /** The pass itself: channel i's state becomes the one `PassAt` computes. */
  method PassOnChannel(reader: BitReader, block: Block, i: nat, t: CodecTables) returns (r: Outcome<DecodeError>)
    requires reader.Valid() && ScaleFactorTables(t) && SpectrumTables(t) && BlockReady(block) && ChannelsReady(block)
    requires i < |block.Channels|
    modifies reader, block.Channels[i]
    ensures reader.Valid() && unchanged(reader`buffer, reader`bits) && block.Channels[i].Valid()
    ensures var step := PassAt(reader.bits, old(reader.position), block.State(), old(ChannelStates(block.Channels)), i,
        block.Config.HighSampleRate, t);
      block.Channels[i].State() == step.State && reader.position == step.Next && r == step.Result
  {
    hide ChannelPass;
    r := UnpackChannel(reader, block, block.Channels[i], t);
  }

  /**
   * The channel loop of `unpackStandardBlock`: each channel in turn, stopping at the first that
   * throws, exactly as `ChannelsFrom` says; the block itself does not change.
   */
  method UnpackChannels(reader: BitReader, block: Block, t: CodecTables) returns (r: Outcome<DecodeError>)
    requires reader.Valid() && ScaleFactorTables(t) && SpectrumTables(t) && BlockReady(block) && ChannelsReady(block)
    modifies reader, block.Channels
    ensures reader.Valid() && unchanged(reader`buffer, reader`bits) && ChannelsReady(block)
    ensures var loop := ChannelsFrom(reader.bits, old(reader.position), block.State(), old(ChannelStates(block.Channels)), 0,
        block.Config.HighSampleRate, t);
      ChannelStates(block.Channels) == loop.Channels && reader.position == loop.Next && r == loop.Result
  {
    hide *;
    ghost var cs := ChannelStates(block.Channels);
    ReadyForLoop(block);
    ghost var whole := ChannelsFrom(reader.bits, reader.position, block.State(), cs, 0, block.Config.HighSampleRate, t);
    r := Pass;
    var i := 0;
    while i < |block.Channels|
      invariant 0 <= i <= |block.Channels| && |cs| == |block.Channels|
      invariant reader.Valid() && unchanged(reader`buffer, reader`bits) && BlockReady(block) && ChannelsReady(block)
      invariant ChannelStates(block.Channels) == cs
      invariant UnitCounts(block.State()) && |block.State().Gradient| == SCALE_FACTOR_SLOTS
      invariant 1 <= |cs| && forall k :: 0 <= k < |cs| ==> ChannelSized(cs[k])
      invariant r.Pass?
      invariant whole == ChannelsFrom(reader.bits, reader.position, block.State(), cs, i, block.Config.HighSampleRate, t)
    {
      ChannelsFromStep(reader.bits, reader.position, block.State(), cs, i, block.Config.HighSampleRate, t);
      r := UnpackChannelAt(reader, block, i, t);
      cs := ChannelStates(block.Channels);
      ReadyForLoop(block);
      if r.Fail? {
        return;
      }
      i := i + 1;
    }
    ChannelsFromDone(reader.bits, reader.position, block.State(), cs, block.Config.HighSampleRate, t);
  }

  // ---------------------------------------------------------------------------------------------
  // The standard body

  /** The unit count the next block compares against: the extension's last unit when it is on. */
  function NextPrev(s: BlockState): (r: int)
    ensures r == s.ExtensionUnit || r == s.QuantizationUnitCount
    ensures s.BandExtensionEnabled ==> r == s.ExtensionUnit
    ensures !s.BandExtensionEnabled ==> r == s.QuantizationUnitCount
  {
    if s.BandExtensionEnabled then s.ExtensionUnit else s.QuantizationUnitCount
  }

  /** The extension fields of each channel state. */
  function BexList(cs: seq<ChannelState>): (r: seq<ChannelBex>)
    ensures |r| == |cs| && forall i :: 0 <= i < |cs| ==> r[i] == BexOf(cs[i])
  {
    seq(|cs|, i requires 0 <= i < |cs| => BexOf(cs[i]))
  }

  /** Each channel state with its extension fields replaced. */
  function WithBexList(cs: seq<ChannelState>, bs: seq<ChannelBex>): (r: seq<ChannelState>)
    requires |bs| == |cs|
    ensures |r| == |cs| && forall i :: 0 <= i < |cs| ==> r[i] == WithBex(cs[i], bs[i])
  {
    seq(|cs|, i requires 0 <= i < |cs| => WithBex(cs[i], bs[i]))
  }

  /** A block and its channels after a run of stages, where the reader stops, and whether a stage threw. */
  datatype BodyStep = BodyStep(Block: BlockState, Channels: seq<ChannelState>, Next: nat, Result: Outcome<DecodeError>)

  /** What the block-level stages ask of the block and its channels. */
  ghost predicate BodyReady(s: BlockState, cs: seq<ChannelState>, blockType: int, config: Config.Atrac9Config)
  {
    && config.SampleRateIndex < 16 && UnitCounts(s)
    && |s.JointStereoSigns| == UNIT_SLOTS && |s.Gradient| == SCALE_FACTOR_SLOTS
    && |cs| == BlockTypeToChannelCount(blockType) && 1 <= |cs|
    && forall k :: 0 <= k < |cs| ==> ChannelSized(cs[k])
  }

  /**
   * The block-level stages of `unpackStandardBlock` on values: `HeaderStages`, then unless they
   * threw the extension parameters, which set the block's extension fields and each channel's.
   */
  ghost function BlockLevel(bits: seq<bool>, pos: nat, s: BlockState, cs: seq<ChannelState>, blockType: int,
                            config: Config.Atrac9Config, t: CodecTables): (r: BodyStep)
    requires BexTables(t) && BodyReady(s, cs, blockType, config)
    ensures |r.Channels| == |cs|
  {
    HeaderStagesShape(bits, pos, s, blockType, config);
    var header := HeaderStages(bits, pos, s, blockType, config);
    if header.Result.Fail? then BodyStep(header.Block, cs, header.Next, header.Result)
    else
      var units := header.Block.QuantizationUnitCount;
      var enabled := header.Block.BandExtensionEnabled;
      ExtensionParamsOutcome(bits, header.Next, ExtensionOf(header.Block), BexList(cs), enabled, units, blockType, t);
      var ext := ExtensionParams(bits, header.Next, ExtensionOf(header.Block), BexList(cs), enabled, units, blockType, t);
      BodyStep(WithExtension(header.Block, ext.Block), WithBexList(cs, ext.Channels), ext.Next, ext.Result)
  }

  /** The block-level stages keep what the channel loop relies on. */
  lemma BlockLevelReady(bits: seq<bool>, pos: nat, s: BlockState, cs: seq<ChannelState>, blockType: int,
                        config: Config.Atrac9Config, t: CodecTables)
    requires BexTables(t) && BodyReady(s, cs, blockType, config)
    ensures var r := BlockLevel(bits, pos, s, cs, blockType, config, t);
      BodyReady(r.Block, r.Channels, blockType, config)
  {
    HeaderStagesShape(bits, pos, s, blockType, config);
    var header := HeaderStages(bits, pos, s, blockType, config);
    if header.Result.Pass? {
      var units := header.Block.QuantizationUnitCount;
      var enabled := header.Block.BandExtensionEnabled;
      ExtensionParamsOutcome(bits, header.Next, ExtensionOf(header.Block), BexList(cs), enabled, units, blockType, t);
      var ext := ExtensionParams(bits, header.Next, ExtensionOf(header.Block), BexList(cs), enabled, units, blockType, t);
      WithBexSized(cs, ext.Channels, blockType);
    }
  }

  /** Extension fields of four values keep every channel's buffer sizes. */
  lemma WithBexSized(cs: seq<ChannelState>, bs: seq<ChannelBex>, blockType: int)
    requires BexShaped(bs, blockType) && |bs| == |cs| && forall k :: 0 <= k < |cs| ==> ChannelSized(cs[k])
    ensures forall k :: 0 <= k < |cs| ==> ChannelSized(WithBexList(cs, bs)[k])
  {
  }

  /** The block-level stages keep the header flags and the previous frame's unit count. */
  lemma BlockLevelKeeps(bits: seq<bool>, pos: nat, s: BlockState, cs: seq<ChannelState>, blockType: int,
                        config: Config.Atrac9Config, t: CodecTables)
    requires BexTables(t) && BodyReady(s, cs, blockType, config)
    ensures var r := BlockLevel(bits, pos, s, cs, blockType, config, t);
      && r.Block.FirstInSuperframe == s.FirstInSuperframe && r.Block.ReuseBandParams == s.ReuseBandParams
      && r.Block.QuantizationUnitsPrev == s.QuantizationUnitsPrev
  {
    HeaderStagesShape(bits, pos, s, blockType, config);
  }

  /** The block-level stages fail only with the invalid-data error or the undefined row of the group table. */
  lemma BlockLevelFails(bits: seq<bool>, pos: nat, s: BlockState, cs: seq<ChannelState>, blockType: int,
                        config: Config.Atrac9Config, t: CodecTables)
    requires BexTables(t) && BodyReady(s, cs, blockType, config)
    ensures var r := BlockLevel(bits, pos, s, cs, blockType, config, t);
      r.Result.Fail? ==> r.Result.error == INVALID || r.Result.error == UndefinedAccess
  {
    HeaderStagesShape(bits, pos, s, blockType, config);
    var header := HeaderStages(bits, pos, s, blockType, config);
    if header.Result.Pass? {
      var units := header.Block.QuantizationUnitCount;
      var enabled := header.Block.BandExtensionEnabled;
      ExtensionParamsOutcome(bits, header.Next, ExtensionOf(header.Block), BexList(cs), enabled, units, blockType, t);
    }
  }

  /**
   * `unpackStandardBlock` on values: the block-level stages, then unless they threw the channel
   * loop, then when that passes the unit count the next block compares against.
   */
  ghost function StandardBody(bits: seq<bool>, pos: nat, s: BlockState, cs: seq<ChannelState>, blockType: int,
                              config: Config.Atrac9Config, t: CodecTables): (r: BodyStep)
    requires ScaleFactorTables(t) && SpectrumTables(t) && BexTables(t) && BodyReady(s, cs, blockType, config)
    ensures |r.Channels| == |cs|
  {
    BlockLevelReady(bits, pos, s, cs, blockType, config, t);
    var level := BlockLevel(bits, pos, s, cs, blockType, config, t);
    if level.Result.Fail? then level
    else
      var loop := ChannelsFrom(bits, level.Next, level.Block, level.Channels, 0, config.HighSampleRate, t);
      var b := if loop.Result.Pass? then level.Block.(QuantizationUnitsPrev := NextPrev(level.Block)) else level.Block;
      BodyStep(b, loop.Channels, loop.Next, loop.Result)
  }

  /**
   * A standard body that passes leaves every channel decoded and records the unit count the
   * next block compares against; one that fails throws the invalid-data error, the undefined
   * row of the group table, or a channel's error, and keeps the block's header flags.
   */
  lemma StandardBodyDecoded(bits: seq<bool>, pos: nat, s: BlockState, cs: seq<ChannelState>, blockType: int,
                            config: Config.Atrac9Config, t: CodecTables)
    requires ScaleFactorTables(t) && SpectrumTables(t) && BexTables(t) && BodyReady(s, cs, blockType, config)
    ensures var r := StandardBody(bits, pos, s, cs, blockType, config, t);
      && BodyReady(r.Block, r.Channels, blockType, config)
      && r.Block.FirstInSuperframe == s.FirstInSuperframe && r.Block.ReuseBandParams == s.ReuseBandParams
      && (r.Result.Pass? ==>
            && r.Block.QuantizationUnitsPrev == NextPrev(r.Block)
            && forall k :: 0 <= k < |cs| ==> DecodedAs(r.Channels[k], r.Block, k, config.HighSampleRate))
  {
    hide *;
    BlockLevelReady(bits, pos, s, cs, blockType, config, t);
    BlockLevelKeeps(bits, pos, s, cs, blockType, config, t);
    StandardBodyParts(bits, pos, s, cs, blockType, config, t);
    var level := BlockLevel(bits, pos, s, cs, blockType, config, t);
    if level.Result.Pass? {
      var loop := ChannelsFrom(bits, level.Next, level.Block, level.Channels, 0, config.HighSampleRate, t);
      ChannelsFromKeeps(bits, level.Next, level.Block, level.Channels, 0, config.HighSampleRate, t);
      ChannelsFromDecoded(bits, level.Next, level.Block, level.Channels, 0, config.HighSampleRate, t);
      ReadyAfterLoop(level.Block, level.Channels, loop.Channels, blockType, config);
      if loop.Result.Pass? {
        forall k | 0 <= k < |cs|
          ensures DecodedAs(loop.Channels[k], level.Block.(QuantizationUnitsPrev := NextPrev(level.Block)), k, config.HighSampleRate)
        {
          DecodedAsKeeps(loop.Channels[k], level.Block, NextPrev(level.Block), k, config.HighSampleRate);
        }
      }
    }
  }

  /** `StandardBody` one stage at a time. */
  lemma StandardBodyParts(bits: seq<bool>, pos: nat, s: BlockState, cs: seq<ChannelState>, blockType: int,
                          config: Config.Atrac9Config, t: CodecTables)
    requires ScaleFactorTables(t) && SpectrumTables(t) && BexTables(t) && BodyReady(s, cs, blockType, config)
    ensures BodyReady(BlockLevel(bits, pos, s, cs, blockType, config, t).Block,
                      BlockLevel(bits, pos, s, cs, blockType, config, t).Channels, blockType, config)
    ensures var level := BlockLevel(bits, pos, s, cs, blockType, config, t);
      var r := StandardBody(bits, pos, s, cs, blockType, config, t);
      && (level.Result.Fail? ==> r == level)
      && (level.Result.Pass? ==>
            var loop := ChannelsFrom(bits, level.Next, level.Block, level.Channels, 0, config.HighSampleRate, t);
            && r.Channels == loop.Channels && r.Result == loop.Result
            && r.Block == if loop.Result.Pass? then level.Block.(QuantizationUnitsPrev := NextPrev(level.Block)) else level.Block)
  {
    BlockLevelReady(bits, pos, s, cs, blockType, config, t);
  }

  /** Channels of the same sizes, and a new previous unit count within range, keep a body ready. */
  lemma ReadyAfterLoop(s: BlockState, cs: seq<ChannelState>, after: seq<ChannelState>, blockType: int, config: Config.Atrac9Config)
    requires BodyReady(s, cs, blockType, config)
    requires |after| == |cs| && forall k :: 0 <= k < |after| ==> ChannelSized(after[k])
    ensures UnitCounts(s) && 0 <= NextPrev(s) <= UNIT_SLOTS
    ensures BodyReady(s, after, blockType, config)
    ensures BodyReady(s.(QuantizationUnitsPrev := NextPrev(s)), after, blockType, config)
  {
  }

  /** Whether a channel is decoded does not depend on the previous unit count. */
  lemma DecodedAsKeeps(c: ChannelState, b: BlockState, prev: int, i: nat, highSampleRate: bool)
    requires ChannelSized(c) && UnitCounts(b) && 0 <= prev <= UNIT_SLOTS
    ensures UnitCounts(b.(QuantizationUnitsPrev := prev))
    ensures DecodedAs(c, b.(QuantizationUnitsPrev := prev), i, highSampleRate) == DecodedAs(c, b, i, highSampleRate)
  {
  }

  /** The header stages on the heap, as the block's driver sees them: `HeaderStages`, and what they keep. */
  method HeaderPart(reader: BitReader, block: Block) returns (r: Outcome<DecodeError>)
    requires reader.Valid() && block.Config.SampleRateIndex < 16 && UnitCounts(block.State())
    requires |block.JointStereoSigns| == UNIT_SLOTS
    modifies reader, block
    ensures reader.Valid() && unchanged(reader`buffer, reader`bits)
    ensures var step := HeaderStages(reader.bits, old(reader.position), old(block.State()), block.BlockType, block.Config);
      block.State() == step.Block && reader.position == step.Next && r == step.Result
    ensures UnitCounts(block.State()) && |block.JointStereoSigns| == UNIT_SLOTS && |block.Gradient| == old(|block.Gradient|)
  {
    HeaderStagesShape(reader.bits, reader.position, block.State(), block.BlockType, block.Config);
    r := ReadHeaderStages(reader, block);
  }

  /**
   * The extension stage on the heap: the block's extension fields and each channel's become
   * those `ExtensionParams` reads from the channels' states, and every channel stays valid.
   */
  method ExtensionPart(reader: BitReader, block: Block, t: CodecTables) returns (r: Outcome<DecodeError>)
    requires reader.Valid() && BexTables(t)
    requires |block.Channels| == BlockTypeToChannelCount(block.BlockType) && 1 <= |block.Channels|
    requires |block.Channels| == 2 ==> block.Channels[0] != block.Channels[1]
    requires forall i :: 0 <= i < |block.Channels| ==> block.Channels[i].Valid()
    requires BexShaped(BexList(ChannelStates(block.Channels)), block.BlockType)
    modifies reader, block, block.Channels
    ensures reader.Valid() && unchanged(reader`buffer, reader`bits)
    ensures forall i :: 0 <= i < |block.Channels| ==> block.Channels[i].Valid()
    ensures var step := ExtensionParams(reader.bits, old(reader.position), ExtensionOf(old(block.State())),
        BexList(old(ChannelStates(block.Channels))), block.BandExtensionEnabled, block.QuantizationUnitCount, block.BlockType, t);
      && |step.Channels| == |block.Channels|
      && block.State() == WithExtension(old(block.State()), step.Block)
      && ChannelStates(block.Channels) == WithBexList(old(ChannelStates(block.Channels)), step.Channels)
      && reader.position == step.Next && r == step.Result
  {
    hide ExtensionParams;
    ghost var cs := ChannelStates(block.Channels);
    assert BexStates(block.Channels) == BexList(cs);
    ExtensionParamsOutcome(reader.bits, reader.position, ExtensionOf(block.State()), BexList(cs),
      block.BandExtensionEnabled, block.QuantizationUnitCount, block.BlockType, t);
    r := ReadExtensionParams(reader, block, t);
  }

  /** The block-level stages of `unpackStandardBlock` on the heap, as `BlockLevel` says; the block stays decodable. */
  method BlockStages(reader: BitReader, block: Block, t: CodecTables) returns (r: Outcome<DecodeError>)
    requires reader.Valid() && BexTables(t) && BlockReady(block) && ChannelsReady(block)
    modifies reader, block, block.Channels
    ensures reader.Valid() && unchanged(reader`buffer, reader`bits) && BlockReady(block) && ChannelsReady(block)
    ensures var level := BlockLevel(reader.bits, old(reader.position), old(block.State()), old(ChannelStates(block.Channels)),
        block.BlockType, block.Config, t);
      && block.State() == level.Block && ChannelStates(block.Channels) == level.Channels
      && reader.position == level.Next && r == level.Result
  {
    hide HeaderStages, ExtensionParams;
    r := HeaderPart(reader, block);
    if r.Pass? {
      DistinctChannels(block);
      assert BodyReady(block.State(), ChannelStates(block.Channels), block.BlockType, block.Config);
      r := ExtensionPart(reader, block, t);
    }
  }

  /**
   * `unpackStandardBlock`: the band stage unless the block reuses its band parameters, the
   * gradient, the stereo and the extension stages, then the channel loop; after all of them the
   * block records the unit count the next block compares against. On a throw nothing after it
   * runs. The block and its channels end as `StandardBody` says, and the block stays decodable.
   */
  method UnpackStandardBlock(reader: BitReader, block: Block, t: CodecTables) returns (r: Outcome<DecodeError>)
    requires reader.Valid() && ScaleFactorTables(t) && SpectrumTables(t) && BexTables(t) && Decodable(block)
    modifies reader, block, block.Channels
    ensures reader.Valid() && unchanged(reader`buffer, reader`bits) && Decodable(block)
    ensures var body := StandardBody(reader.bits, old(reader.position), old(block.State()), old(ChannelStates(block.Channels)),
        block.BlockType, block.Config, t);
      && block.State() == body.Block && ChannelStates(block.Channels) == body.Channels
      && reader.position == body.Next && r == body.Result
  {
    r := BlockStages(reader, block, t);
    if r.Fail? {
      return;
    }
    r := ChannelsThenPrev(reader, block, t);
  }

  /** The tail of `unpackStandardBlock`: the channel loop, then the unit count recorded when it passes. */
  method ChannelsThenPrev(reader: BitReader, block: Block, t: CodecTables) returns (r: Outcome<DecodeError>)
    requires reader.Valid() && ScaleFactorTables(t) && SpectrumTables(t) && BlockReady(block) && ChannelsReady(block)
    modifies reader, block, block.Channels
    ensures reader.Valid() && unchanged(reader`buffer, reader`bits) && BlockReady(block) && ChannelsReady(block)
    ensures var loop := ChannelsFrom(reader.bits, old(reader.position), old(block.State()), old(ChannelStates(block.Channels)), 0,
        block.Config.HighSampleRate, t);
      && ChannelStates(block.Channels) == loop.Channels && reader.position == loop.Next && r == loop.Result
      && block.State() == if r.Pass? then old(block.State()).(QuantizationUnitsPrev := NextPrev(old(block.State())))
                          else old(block.State())
  {
    hide *;
    r := UnpackChannels(reader, block, t);
    if r.Fail? {
      return;
    }
    RecordPrev(block);
  }

  /** The last statement of `unpackStandardBlock`: only the previous unit count changes. */
  method RecordPrev(block: Block)
    requires BlockReady(block)
    modifies block
    ensures block.State() == old(block.State()).(QuantizationUnitsPrev := NextPrev(old(block.State())))
    ensures BlockReady(block)
  {
    block.QuantizationUnitsPrev := NextPrev(block.State());
  }

  // ---------------------------------------------------------------------------------------------
  // A whole block

  /** `readBlockHeader` on a decodable block, which it keeps decodable. */
  method BlockHeader(reader: BitReader, block: Block, frameIndex: int) returns (r: Outcome<DecodeError>)
    requires reader.Valid() && Decodable(block)
    modifies reader, block
    ensures reader.Valid() && unchanged(reader`buffer, reader`bits) && Decodable(block)
    ensures var p := old(reader.position);
      var first := !Flag(reader.bits, p);
      var reuse := Flag(reader.bits, p + 1);
      && reader.position == p + 2
      && block.State() == old(block.State()).(FirstInSuperframe := first, ReuseBandParams := reuse)
      && r == HeaderCheck(first, reuse, frameIndex, block.BlockType)
  {
    r := ReadBlockHeader(reader, block, frameIndex);
  }

  /**
   * The LFE channel after its body: two coded units at the fixed precision with no fine part,
   * and two 5-bit scale factors.
   */
  ghost predicate LfeFixed(c: ChannelState, reuse: bool)
  {
    && c.CodedQuantUnits == Some(LFE_UNITS as int)
    && |c.Precisions| == UNIT_SLOTS && |c.PrecisionsFine| == UNIT_SLOTS && |c.ScaleFactors| == SCALE_FACTOR_SLOTS
    && c.Precisions[0] == LfePrecision(reuse) && c.Precisions[1] == LfePrecision(reuse)
    && c.PrecisionsFine[0] == 0 && c.PrecisionsFine[1] == 0
    && 0 <= c.ScaleFactors[0] < 32 && 0 <= c.ScaleFactors[1] < 32
  }

  /** The exact LFE read gives the fixed values. */
  lemma LfeReadFixed(c0: ChannelState, c: ChannelState, bits: seq<bool>, pos: nat, end: nat, reuse: bool)
    requires ChannelSized(c0) && LfeChannelRead(c0, c, bits, pos, end, LFE_UNITS, reuse)
    ensures LfeFixed(c, reuse)
  {
    LfeScaleFactorsRead(bits, pos, LFE_UNITS, 0);
    LfeScaleFactorsRead(bits, pos, LFE_UNITS, 1);
  }

  /**
   * `unpackBlock` on values: the two header flags and their check against the frame's place in
   * its superframe; then, unless the check throws, the LFE body (`LfeChannelRead` on the only
   * channel) or the standard body (`StandardBody`); then, unless the body threw, padding to the
   * next byte. `bodyEnd` is where the body stops and `end` where the reader is left.
   */
  ghost predicate BlockRead(s0: BlockState, cs0: seq<ChannelState>, s: BlockState, cs: seq<ChannelState>,
                            bits: seq<bool>, pos: nat, end: nat, bodyEnd: nat, r: Outcome<DecodeError>,
                            frameIndex: int, blockType: int, config: Config.Atrac9Config, t: CodecTables)
    requires ScaleFactorTables(t) && SpectrumTables(t) && BexTables(t) && BodyReady(s0, cs0, blockType, config)
  {
    var first := !Flag(bits, pos);
    var reuse := Flag(bits, pos + 1);
    var flagged := s0.(FirstInSuperframe := first, ReuseBandParams := reuse);
    var check := HeaderCheck(first, reuse, frameIndex, blockType);
    if check.Fail? then
      s == flagged && cs == cs0 && end == pos + 2 && bodyEnd == pos + 2 && r == check
    else if blockType == LFE then
      && s == flagged.(QuantizationUnitCount := LFE_UNITS) && |cs| == |cs0|
      && cs == cs0[0 := cs[0]] && LfeChannelRead(cs0[0], cs[0], bits, pos + 2, bodyEnd, LFE_UNITS, reuse)
      && end == AlignUp(bodyEnd, 8) && r == Pass
    else
      var body := StandardBody(bits, pos + 2, flagged, cs0, blockType, config, t);
      && s == body.Block && cs == body.Channels && bodyEnd == body.Next && r == body.Result
      && end == if r.Pass? then AlignUp(bodyEnd, 8) else bodyEnd
  }

  /**
   * A block read that passes ends on a byte boundary with its first-in-superframe flag agreeing
   * with the frame's index; an LFE block then holds its fixed values, and a standard block's
   * channels are decoded.
   */
  lemma BlockReadPasses(s0: BlockState, cs0: seq<ChannelState>, s: BlockState, cs: seq<ChannelState>,
                        bits: seq<bool>, pos: nat, end: nat, bodyEnd: nat, r: Outcome<DecodeError>,
                        frameIndex: int, blockType: int, config: Config.Atrac9Config, t: CodecTables)
    requires ScaleFactorTables(t) && SpectrumTables(t) && BexTables(t) && BodyReady(s0, cs0, blockType, config)
    requires BlockRead(s0, cs0, s, cs, bits, pos, end, bodyEnd, r, frameIndex, blockType, config, t)
    requires r.Pass?
    ensures end % 8 == 0 && s.FirstInSuperframe == (frameIndex == 0) && s.ReuseBandParams == Flag(bits, pos + 1)
    ensures blockType == LFE ==> s.QuantizationUnitCount == LFE_UNITS && LfeFixed(cs[0], s.ReuseBandParams)
    ensures blockType != LFE ==>
      && BodyReady(s, cs, blockType, config) && s.QuantizationUnitsPrev == NextPrev(s)
      && forall k :: 0 <= k < |cs| ==> DecodedAs(cs[k], s, k, config.HighSampleRate)
  {
    hide StandardBody, LfeChannelRead, BlockLevel, ChannelsFrom, DecodedAs, Flag, LfeFixed, NextPrev;
    var flagged := s0.(FirstInSuperframe := !Flag(bits, pos), ReuseBandParams := Flag(bits, pos + 1));
    if blockType == LFE {
      LfeReadFixed(cs0[0], cs[0], bits, pos + 2, bodyEnd, Flag(bits, pos + 1));
    } else {
      StandardBodyDecoded(bits, pos + 2, flagged, cs0, blockType, config, t);
    }
  }

  /** `unpackLfeBlock` on a decodable LFE block, which it keeps decodable. */
  method LfeBody(reader: BitReader, block: Block)
    requires reader.Valid() && Decodable(block)
    modifies reader, block, block.Channels[0]
    ensures reader.Valid() && unchanged(reader`buffer, reader`bits) && Decodable(block)
    ensures block.State() == old(block.State()).(QuantizationUnitCount := LFE_UNITS)
    ensures LfeChannelRead(old(block.Channels[0].State()), block.Channels[0].State(), reader.bits,
      old(reader.position), reader.position, LFE_UNITS, block.ReuseBandParams)
    ensures ChannelStates(block.Channels) == old(ChannelStates(block.Channels))[0 := block.Channels[0].State()]
  {
    hide *;
    DecodableParts(block);
    ReadyParts(block);
    UnpackLfeBlock(reader, block);
    UnitCountsLfe(old(block.State()));
    PartsReady(block);
    DecodableParts(block);
  }

  /** `Decodable`, one fact at a time. */
  lemma DecodableParts(block: Block)
    ensures Decodable(block) <==> BlockReady(block) && ChannelsReady(block)
    ensures BlockReady(block) <==>
      && block.Config.SampleRateIndex < 16 && |block.State().Gradient| == SCALE_FACTOR_SLOTS
      && |block.State().JointStereoSigns| == UNIT_SLOTS && UnitCounts(block.State())
  {
  }

  /** An LFE block's two coded units keep the unit counts in range. */
  lemma UnitCountsLfe(s: BlockState)
    requires UnitCounts(s)
    ensures UnitCounts(s.(QuantizationUnitCount := LFE_UNITS))
  {
  }

  /**
   * `unpackBlock`: the two header flags, which must agree with the frame's place in its
   * superframe, then the body, then padding to the next byte, exactly as `BlockRead` says with
   * `bodyEnd` where the body stops. The block stays decodable whatever throws.
   */
  method UnpackBlock(reader: BitReader, block: Block, frameIndex: int, t: CodecTables)
    returns (r: Outcome<DecodeError>, ghost bodyEnd: nat)
    requires reader.Valid() && ScaleFactorTables(t) && SpectrumTables(t) && BexTables(t) && Decodable(block)
    modifies reader, block, block.Channels
    ensures reader.Valid() && unchanged(reader`buffer, reader`bits) && Decodable(block)
    ensures old(BodyReady(block.State(), ChannelStates(block.Channels), block.BlockType, block.Config))
    ensures BlockRead(old(block.State()), old(ChannelStates(block.Channels)), block.State(), ChannelStates(block.Channels),
      reader.bits, old(reader.position), reader.position, bodyEnd, r, frameIndex, block.BlockType, block.Config, t)
  {
    hide *;
    DecodableBodyReady(block);
    ghost var s0, cs0, pos := block.State(), ChannelStates(block.Channels), reader.position;
    r := BlockHeader(reader, block, frameIndex);
    bodyEnd := reader.position;
    if r.Fail? {
      BlockReadHeaderFails(s0, cs0, reader.bits, pos, frameIndex, block.BlockType, block.Config, t);
      return;
    }
    if block.BlockType == LFE {
      bodyEnd := AlignedLfeBody(reader, block);
      r := Pass;
      ReuseField(block);
      BlockReadLfe(s0, cs0, block.Channels[0].State(), reader.bits, pos, bodyEnd, frameIndex, block.BlockType, block.Config, t);
    } else {
      r, bodyEnd := AlignedStandardBody(reader, block, t);
      BlockReadStandard(s0, cs0, reader.bits, pos, frameIndex, block.BlockType, block.Config, t);
    }
  }

  /** The reuse flag as the block's state holds it. */
  lemma ReuseField(block: Block)
    ensures block.State().ReuseBandParams == block.ReuseBandParams
  {
  }

  /** A block whose header check throws is read as far as its two flags. */
  lemma BlockReadHeaderFails(s0: BlockState, cs0: seq<ChannelState>, bits: seq<bool>, pos: nat,
                             frameIndex: int, blockType: int, config: Config.Atrac9Config, t: CodecTables)
    requires ScaleFactorTables(t) && SpectrumTables(t) && BexTables(t) && BodyReady(s0, cs0, blockType, config)
    requires HeaderCheck(!Flag(bits, pos), Flag(bits, pos + 1), frameIndex, blockType).Fail?
    ensures BlockRead(s0, cs0, s0.(FirstInSuperframe := !Flag(bits, pos), ReuseBandParams := Flag(bits, pos + 1)), cs0,
      bits, pos, pos + 2, pos + 2, HeaderCheck(!Flag(bits, pos), Flag(bits, pos + 1), frameIndex, blockType),
      frameIndex, blockType, config, t)
  {
  }

  /** An LFE block whose header check passes is read as its channel's LFE read says. */
  lemma BlockReadLfe(s0: BlockState, cs0: seq<ChannelState>, c: ChannelState, bits: seq<bool>, pos: nat, bodyEnd: nat,
                     frameIndex: int, blockType: int, config: Config.Atrac9Config, t: CodecTables)
    requires ScaleFactorTables(t) && SpectrumTables(t) && BexTables(t) && BodyReady(s0, cs0, blockType, config)
    requires HeaderCheck(!Flag(bits, pos), Flag(bits, pos + 1), frameIndex, blockType).Pass? && blockType == LFE
    requires LfeChannelRead(cs0[0], c, bits, pos + 2, bodyEnd, LFE_UNITS, Flag(bits, pos + 1))
    ensures BlockRead(s0, cs0,
      s0.(FirstInSuperframe := !Flag(bits, pos), ReuseBandParams := Flag(bits, pos + 1), QuantizationUnitCount := LFE_UNITS),
      cs0[0 := c], bits, pos, AlignUp(bodyEnd, 8), bodyEnd, Pass, frameIndex, blockType, config, t)
  {
  }

  /** A standard block whose header check passes is read as `StandardBody` says. */
  lemma BlockReadStandard(s0: BlockState, cs0: seq<ChannelState>, bits: seq<bool>, pos: nat,
                          frameIndex: int, blockType: int, config: Config.Atrac9Config, t: CodecTables)
    requires ScaleFactorTables(t) && SpectrumTables(t) && BexTables(t) && BodyReady(s0, cs0, blockType, config)
    requires HeaderCheck(!Flag(bits, pos), Flag(bits, pos + 1), frameIndex, blockType).Pass? && blockType != LFE
    ensures BodyReady(s0.(FirstInSuperframe := !Flag(bits, pos), ReuseBandParams := Flag(bits, pos + 1)), cs0, blockType, config)
    ensures var body := StandardBody(bits, pos + 2, s0.(FirstInSuperframe := !Flag(bits, pos), ReuseBandParams := Flag(bits, pos + 1)),
        cs0, blockType, config, t);
      BlockRead(s0, cs0, body.Block, body.Channels, bits, pos, if body.Result.Pass? then AlignUp(body.Next, 8) else body.Next,
        body.Next, body.Result, frameIndex, blockType, config, t)
  {
  }

  /** A decodable block and its channels are ready for the block-level stages. */
  lemma DecodableBodyReady(block: Block)
    requires Decodable(block)
    ensures BodyReady(block.State(), ChannelStates(block.Channels), block.BlockType, block.Config)
  {
  }

  /** The LFE body, then padding to the next byte. */
  method AlignedLfeBody(reader: BitReader, block: Block) returns (ghost bodyEnd: nat)
    requires reader.Valid() && Decodable(block)
    modifies reader, block, block.Channels[0]
    ensures reader.Valid() && unchanged(reader`buffer, reader`bits) && Decodable(block)
    ensures block.State() == old(block.State()).(QuantizationUnitCount := LFE_UNITS)
    ensures LfeChannelRead(old(block.Channels[0].State()), block.Channels[0].State(), reader.bits,
      old(reader.position), bodyEnd, LFE_UNITS, block.ReuseBandParams)
    ensures ChannelStates(block.Channels) == old(ChannelStates(block.Channels))[0 := block.Channels[0].State()]
    ensures reader.position == AlignUp(bodyEnd, 8)
  {
    hide LfeChannelRead;
    LfeBody(reader, block);
    bodyEnd := reader.position;
    reader.AlignPosition(8);
  }

  /** The standard body, then padding to the next byte unless the body threw. */
  method AlignedStandardBody(reader: BitReader, block: Block, t: CodecTables)
    returns (r: Outcome<DecodeError>, ghost bodyEnd: nat)
    requires reader.Valid() && ScaleFactorTables(t) && SpectrumTables(t) && BexTables(t) && Decodable(block)
    modifies reader, block, block.Channels
    ensures reader.Valid() && unchanged(reader`buffer, reader`bits) && Decodable(block)
    ensures var body := StandardBody(reader.bits, old(reader.position), old(block.State()), old(ChannelStates(block.Channels)),
        block.BlockType, block.Config, t);
      && block.State() == body.Block && ChannelStates(block.Channels) == body.Channels
      && bodyEnd == body.Next && r == body.Result
    ensures reader.position == if r.Pass? then AlignUp(bodyEnd, 8) else bodyEnd
  {
    hide *;
    r := UnpackStandardBlock(reader, block, t);
    bodyEnd := reader.position;
    if r.Fail? {
      return;
    }
    reader.AlignPosition(8);
  }
}
