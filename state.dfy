/**
 * The mutable decode state: a frame holds one block per entry of the channel
 * configuration, a block holds its one or two channels, and every decoding stage
 * updates the fields of these objects in place.
 */
module DecodeState {
  import opened JsInt
  import opened Wrappers
  import opened ChannelConfigs
  import opened Config
  import M = Mdct
  import opened NoiseGenerator

  const SCALE_FACTOR_SLOTS: nat := 31
  const UNIT_SLOTS: nat := 30
  const BIN_SLOTS: nat := 256

  /**
   * Why decoding a block stopped: the decoder's invalid-data exception, with its message or
   * an empty one, a property read through an undefined table row, or a name the running code
   * does not define.
   */
  datatype DecodeError = InvalidData(message: string) | UndefinedAccess | NotDefined(name: string)

  /** Every number in `s` is zero. */
  predicate AllZero(s: seq<int>)
  {
    forall k :: 0 <= k < |s| ==> s[k] == 0
  }

  /** A buffer after `fill(0)`. */
  function ZeroFill(n: nat): (z: seq<int>)
    ensures |z| == n && AllZero(z)
  {
    seq(n, _ => 0)
  }

  /** The fields of a channel that the stages reassign, taken together. */
  datatype ChannelState = ChannelState(
    CodedQuantUnits: Option<int>,
    ScaleFactorCodingMode: int,
    ScaleFactors: seq<int>,
    ScaleFactorsPrev: seq<int>,
    Precisions: seq<int>,
    PrecisionsFine: seq<int>,
    PrecisionMask: seq<int>,
    SpectraValuesBuffer: seq<int>,
    CodebookSet: seq<int>,
    QuantizedSpectra: seq<int>,
    QuantizedSpectraFine: seq<int>,
    BexMode: int,
    BexValueCount: int,
    BexValues: seq<int>,
    BexScales: seq<real>,
    Rng: Option<RngState>)

  /** A fresh channel: every buffer zero-filled at its size, no coded units and no generator. */
  function InitialChannel(): (s: ChannelState)
    ensures |s.ScaleFactors| == |s.ScaleFactorsPrev| == SCALE_FACTOR_SLOTS
    ensures |s.Precisions| == |s.PrecisionsFine| == |s.PrecisionMask| == |s.CodebookSet| == UNIT_SLOTS
    ensures |s.QuantizedSpectra| == |s.QuantizedSpectraFine| == BIN_SLOTS
    ensures |s.SpectraValuesBuffer| == 16 && |s.BexValues| == 4 && |s.BexScales| == 6
    ensures AllZero(s.ScaleFactors) && AllZero(s.ScaleFactorsPrev) && AllZero(s.Precisions)
    ensures AllZero(s.PrecisionsFine) && AllZero(s.PrecisionMask) && AllZero(s.CodebookSet)
    ensures AllZero(s.QuantizedSpectra) && AllZero(s.QuantizedSpectraFine) && AllZero(s.SpectraValuesBuffer)
    ensures AllZero(s.BexValues) && forall k :: 0 <= k < 6 ==> s.BexScales[k] == 0.0
    ensures s.CodedQuantUnits == Some(0) && s.Rng.None?
  {
    ChannelState(
      Some(0), 0,
      seq(SCALE_FACTOR_SLOTS, _ => 0), seq(SCALE_FACTOR_SLOTS, _ => 0),
      seq(UNIT_SLOTS, _ => 0), seq(UNIT_SLOTS, _ => 0), seq(UNIT_SLOTS, _ => 0),
      seq(16, _ => 0), seq(UNIT_SLOTS, _ => 0),
      seq(BIN_SLOTS, _ => 0), seq(BIN_SLOTS, _ => 0),
      0, 0, seq(4, _ => 0), seq(6, _ => 0.0), None)
  }

  /** A sample buffer that is none of the transform's arrays. */
  predicate Apart(buffer: array<real>, mdct: M.Mdct)
  {
    && buffer != mdct.mdctPrevious && buffer != mdct.imdctPrevious && buffer != mdct.scratchMdct
    && buffer != mdct.scratchDct && buffer != mdct.imdctWindow
  }

  /**
   * One output channel of a block. The typed arrays of the decoder are sequences the
   * stages reassign; the two sample buffers the transform reads and writes are arrays.
   */
  class Channel {
    const ChannelIndex: nat
    const Config: Atrac9Config
    const Mdct: M.Mdct
    const Pcm: array<real>
    const Spectra: array<real>

    var CodedQuantUnits: Option<int>
    var ScaleFactorCodingMode: int
    var ScaleFactors: seq<int>
    var ScaleFactorsPrev: seq<int>
    var Precisions: seq<int>
    var PrecisionsFine: seq<int>
    var PrecisionMask: seq<int>
    var SpectraValuesBuffer: seq<int>
    var CodebookSet: seq<int>
    var QuantizedSpectra: seq<int>
    var QuantizedSpectraFine: seq<int>
    var BexMode: int
    var BexValueCount: int
    var BexValues: seq<int>
    /** A plain array of six entries at first; a write past its end lengthens it. */
    var BexScales: seq<real>
    /**
     * The noise generator, created on the first noise fill, as its four state words: only this
     * channel refers to it, so replacing the words and updating the generator in place agree.
     */
    var Rng: Option<RngState>

    function State(): ChannelState
      reads this
    {
      ChannelState(CodedQuantUnits, ScaleFactorCodingMode, ScaleFactors, ScaleFactorsPrev,
        Precisions, PrecisionsFine, PrecisionMask, SpectraValuesBuffer, CodebookSet,
        QuantizedSpectra, QuantizedSpectraFine, BexMode, BexValueCount, BexValues, BexScales, Rng)
    }

    /** The objects this channel owns: itself, its two sample buffers and its transform. */
    ghost const Repr: set<object>

    /** The buffers keep their sizes, and the transform matches the frame size and owns separate arrays. */
    ghost predicate Valid()
      reads this
    {
      && |ScaleFactors| == SCALE_FACTOR_SLOTS && |ScaleFactorsPrev| == SCALE_FACTOR_SLOTS
      && |Precisions| == UNIT_SLOTS && |PrecisionsFine| == UNIT_SLOTS
      && |PrecisionMask| == UNIT_SLOTS && |CodebookSet| == UNIT_SLOTS
      && |SpectraValuesBuffer| == 16
      && |QuantizedSpectra| == BIN_SLOTS && |QuantizedSpectraFine| == BIN_SLOTS
      && |BexValues| == 4 && |BexScales| >= 6
      && this in Repr && Pcm in Repr && Spectra in Repr && Mdct in Repr
      && Mdct.mdctPrevious in Repr && Mdct.imdctPrevious in Repr && Mdct.scratchMdct in Repr && Mdct.scratchDct in Repr
      && Mdct.imdctWindow !in Repr
      && Pcm.Length == BIN_SLOTS && Spectra.Length == BIN_SLOTS && Pcm != Spectra
      && Mdct.Layout() && Mdct.mdctBits == Config.FrameSamplesPower
      && Apart(Pcm, Mdct) && Apart(Spectra, Mdct)
    }

    constructor (channelIndex: nat, config: Atrac9Config, mdct: M.Mdct)
      requires mdct.Layout() && mdct.mdctBits == config.FrameSamplesPower
      ensures Valid()
      ensures ChannelIndex == channelIndex && Config == config && Mdct == mdct
      ensures State() == InitialChannel()
      ensures fresh(Pcm) && fresh(Spectra)
      ensures Repr == {this, Pcm, Spectra, Mdct, Mdct.mdctPrevious, Mdct.imdctPrevious, Mdct.scratchMdct, Mdct.scratchDct}
      ensures forall k :: 0 <= k < BIN_SLOTS ==> Pcm[k] == 0.0 && Spectra[k] == 0.0
      ensures Pcm.Length == BIN_SLOTS && Spectra.Length == BIN_SLOTS
    {
      ChannelIndex := channelIndex;
      Config := config;
      Mdct := mdct;
      Pcm := new real[BIN_SLOTS](_ => 0.0);
      Spectra := new real[BIN_SLOTS](_ => 0.0);
      Repr := {this, Pcm, Spectra, mdct, mdct.mdctPrevious, mdct.imdctPrevious, mdct.scratchMdct, mdct.scratchDct};
      var initial := InitialChannel();
      CodedQuantUnits := initial.CodedQuantUnits;
      ScaleFactorCodingMode := initial.ScaleFactorCodingMode;
      ScaleFactors := initial.ScaleFactors;
      ScaleFactorsPrev := initial.ScaleFactorsPrev;
      Precisions := initial.Precisions;
      PrecisionsFine := initial.PrecisionsFine;
      PrecisionMask := initial.PrecisionMask;
      SpectraValuesBuffer := initial.SpectraValuesBuffer;
      CodebookSet := initial.CodebookSet;
      QuantizedSpectra := initial.QuantizedSpectra;
      QuantizedSpectraFine := initial.QuantizedSpectraFine;
      BexMode := initial.BexMode;
      BexValueCount := initial.BexValueCount;
      BexValues := initial.BexValues;
      BexScales := initial.BexScales;
      Rng := initial.Rng;
    }

    /** Loose equality of a number and a possibly unassigned one: never true when unassigned. */
    predicate IsPrimary(block: Block)
      reads block
    {
      block.PrimaryChannelIndex == Some(ChannelIndex as int)
    }

    /** The primary channel codes every unit of the block; the other one stops at the stereo unit. */
    method UpdateCodedUnits(block: Block)
      modifies this
      ensures State() == old(State()).(CodedQuantUnits :=
        if IsPrimary(block) then Some(block.QuantizationUnitCount) else block.StereoQuantizationUnit)
      ensures block.PrimaryChannelIndex.None? ==> CodedQuantUnits == block.StereoQuantizationUnit
    {
      CodedQuantUnits := if IsPrimary(block) then Some(block.QuantizationUnitCount) else block.StereoQuantizationUnit;
    }

    /** Stores what the scale-factor stage read; factors of the right size keep the channel valid. */
    method StoreScaleFactors(mode: int, values: seq<int>, previous: seq<int>)
      requires Valid() && |values| == SCALE_FACTOR_SLOTS && |previous| == SCALE_FACTOR_SLOTS
      modifies this
      ensures Valid()
      ensures State() == old(State()).(ScaleFactorCodingMode := mode, ScaleFactors := values, ScaleFactorsPrev := previous)
    {
      ScaleFactorCodingMode, ScaleFactors, ScaleFactorsPrev := mode, values, previous;
    }

    /** Band extension's scale list replaced; a list of at least six entries keeps the channel valid. */
    method StoreBexScales(scales: seq<real>)
      requires Valid() && |scales| >= 6
      modifies this
      ensures Valid()
      ensures State() == old(State()).(BexScales := scales)
    {
      BexScales := scales;
    }

    /** The noise generator's words replaced. */
    method StoreRng(rng: RngState)
      requires Valid()
      modifies this
      ensures Valid()
      ensures State() == old(State()).(Rng := Some(rng))
    {
      Rng := Some(rng);
    }

    /** The buffers a stage reassigns keep their sizes: the channel stays valid. */
    twostate lemma StaysValid()
      requires old(Valid())
      requires |ScaleFactors| == SCALE_FACTOR_SLOTS && |ScaleFactorsPrev| == SCALE_FACTOR_SLOTS
      requires |Precisions| == UNIT_SLOTS && |PrecisionsFine| == UNIT_SLOTS
      requires |PrecisionMask| == UNIT_SLOTS && |CodebookSet| == UNIT_SLOTS && |SpectraValuesBuffer| == 16
      requires |QuantizedSpectra| == BIN_SLOTS && |QuantizedSpectraFine| == BIN_SLOTS
      requires |BexValues| == 4 && |BexScales| >= 6
      ensures Valid()
    {
    }
  }

  /** The fields of a block that the stages reassign, taken together. */
  datatype BlockState = BlockState(
    FirstInSuperframe: bool,
    ReuseBandParams: bool,
    BandCount: int,
    StereoBand: int,
    ExtensionBand: int,
    QuantizationUnitCount: int,
    StereoQuantizationUnit: Option<int>,
    ExtensionUnit: int,
    QuantizationUnitsPrev: int,
    Gradient: seq<int>,
    GradientMode: int,
    GradientStartUnit: int,
    GradientStartValue: int,
    GradientEndUnit: int,
    GradientEndValue: int,
    GradientBoundary: int,
    PrimaryChannelIndex: Option<int>,
    JointStereoSigns: seq<int>,
    HasJointStereoSigns: bool,
    BandExtensionEnabled: bool,
    HasExtensionData: bool,
    BexDataLength: int,
    BexMode: int)

  /**
   * A fresh block: zeroed gradient and signs. The two fields only stereo blocks assign
   * start unassigned; the others are assigned before they are read and start at zero.
   */
  function InitialBlock(): (s: BlockState)
    ensures |s.Gradient| == SCALE_FACTOR_SLOTS && AllZero(s.Gradient)
    ensures |s.JointStereoSigns| == UNIT_SLOTS && AllZero(s.JointStereoSigns)
    ensures s.PrimaryChannelIndex.None? && s.StereoQuantizationUnit.None?
  {
    BlockState(false, false, 0, 0, 0, 0, None, 0, 0, seq(SCALE_FACTOR_SLOTS, _ => 0),
      0, 0, 0, 0, 0, 0, None, seq(UNIT_SLOTS, _ => 0), false, false, false, 0, 0)
  }

  class Block {
    const Config: Atrac9Config
    const BlockType: int
    const BlockIndex: nat
    const ChannelCount: nat
    const Channels: seq<Channel>
    /** The transform tables every channel's transform shares. */
    ghost const Tables: M.MdctTables

    var FirstInSuperframe: bool
    var ReuseBandParams: bool
    var BandCount: int
    var StereoBand: int
    var ExtensionBand: int
    var QuantizationUnitCount: int
    var StereoQuantizationUnit: Option<int>
    var ExtensionUnit: int
    var QuantizationUnitsPrev: int
    var Gradient: seq<int>
    var GradientMode: int
    var GradientStartUnit: int
    var GradientStartValue: int
    var GradientEndUnit: int
    var GradientEndValue: int
    var GradientBoundary: int
    var PrimaryChannelIndex: Option<int>
    var JointStereoSigns: seq<int>
    var HasJointStereoSigns: bool
    var BandExtensionEnabled: bool
    var HasExtensionData: bool
    var BexDataLength: int
    var BexMode: int

    function State(): BlockState
      reads this
    {
      BlockState(FirstInSuperframe, ReuseBandParams, BandCount, StereoBand, ExtensionBand,
        QuantizationUnitCount, StereoQuantizationUnit, ExtensionUnit, QuantizationUnitsPrev,
        Gradient, GradientMode, GradientStartUnit, GradientStartValue, GradientEndUnit,
        GradientEndValue, GradientBoundary, PrimaryChannelIndex, JointStereoSigns,
        HasJointStereoSigns, BandExtensionEnabled, HasExtensionData, BexDataLength, BexMode)
    }

    /** The block and everything its channels own. */
    ghost const Repr: set<object>

    /** Every field the decoder updates holds its value after construction. */
    ghost predicate Initial()
      reads this
    {
      State() == InitialBlock()
    }

    ghost predicate Valid()
      reads this, Repr
    {
      && this in Repr
      && ChannelCount == BlockTypeToChannelCount(BlockType) && |Channels| == ChannelCount
      && |Gradient| == SCALE_FACTOR_SLOTS && |JointStereoSigns| == UNIT_SLOTS
      && (forall i :: 0 <= i < |Channels| ==> ChannelOf(Channels[i], i))
      && (|Channels| == 2 ==> Channels[0].Repr !! Channels[1].Repr)
    }

    /** Channel `c` sits at slot i, inside this block's footprint, and is valid. */
    ghost predicate ChannelOf(c: Channel, i: nat)
      reads this, Repr
    {
      && c in c.Repr && c.Repr <= Repr && this !in c.Repr
      && c.ChannelIndex == i && c.Config == Config && c.Mdct.tables == Tables && c.Valid()
    }

    constructor (config: Atrac9Config, blockIndex: nat, blockType: int, channels: seq<Channel>, tables: M.MdctTables)
      requires |channels| == BlockTypeToChannelCount(blockType)
      requires forall i :: 0 <= i < |channels| ==>
        && channels[i].ChannelIndex == i && channels[i].Config == config
        && channels[i].Mdct.tables == tables && channels[i].Valid()
      requires |channels| == 2 ==> channels[0].Repr !! channels[1].Repr
      ensures Valid()
      ensures Config == config && BlockIndex == blockIndex && BlockType == blockType
      ensures Channels == channels && ChannelCount == BlockTypeToChannelCount(blockType) && Tables == tables
      ensures Repr == {this} + (if |channels| > 0 then channels[0].Repr else {})
        + (if |channels| > 1 then channels[1].Repr else {})
      ensures State() == InitialBlock()
    {
      Config := config;
      BlockIndex := blockIndex;
      BlockType := blockType;
      ChannelCount := BlockTypeToChannelCount(blockType);
      Channels := channels;
      Tables := tables;
      Repr := {this} + (if |channels| > 0 then channels[0].Repr else {})
        + (if |channels| > 1 then channels[1].Repr else {});
      var initial := InitialBlock();
      FirstInSuperframe := initial.FirstInSuperframe;
      ReuseBandParams := initial.ReuseBandParams;
      BandCount := initial.BandCount;
      StereoBand := initial.StereoBand;
      ExtensionBand := initial.ExtensionBand;
      QuantizationUnitCount := initial.QuantizationUnitCount;
      StereoQuantizationUnit := initial.StereoQuantizationUnit;
      ExtensionUnit := initial.ExtensionUnit;
      QuantizationUnitsPrev := initial.QuantizationUnitsPrev;
      Gradient := initial.Gradient;
      GradientMode := initial.GradientMode;
      GradientStartUnit := initial.GradientStartUnit;
      GradientStartValue := initial.GradientStartValue;
      GradientEndUnit := initial.GradientEndUnit;
      GradientEndValue := initial.GradientEndValue;
      GradientBoundary := initial.GradientBoundary;
      PrimaryChannelIndex := initial.PrimaryChannelIndex;
      JointStereoSigns := initial.JointStereoSigns;
      HasJointStereoSigns := initial.HasJointStereoSigns;
      BandExtensionEnabled := initial.BandExtensionEnabled;
      HasExtensionData := initial.HasExtensionData;
      BexDataLength := initial.BexDataLength;
      BexMode := initial.BexMode;
    }

    /** Slot of the primary channel: 0 when the index is 0, 1 otherwise (also when unassigned). */
    function PrimarySlot(): nat
      reads this
    {
      if PrimaryChannelIndex == Some(0) then 0 else 1
    }

    function SecondarySlot(): nat
      reads this
    {
      if PrimaryChannelIndex == Some(0) then 1 else 0
    }

    function PrimaryChannel(): Channel
      reads this
      requires PrimarySlot() < |Channels|
    {
      Channels[PrimarySlot()]
    }

    function SecondaryChannel(): Channel
      reads this
      requires SecondarySlot() < |Channels|
    {
      Channels[SecondarySlot()]
    }

    /**
     * In a stereo block the primary and the secondary channel are the two distinct channels,
     * and once the index bit has been read the primary one is exactly the channel it names.
     */
    lemma StereoRoles()
      requires Valid() && BlockType == STEREO
      ensures PrimaryChannel() != SecondaryChannel()
      ensures {PrimaryChannel(), SecondaryChannel()} == {Channels[0], Channels[1]}
      ensures PrimaryChannelIndex == Some(0) || PrimaryChannelIndex == Some(1) ==>
        PrimaryChannel().IsPrimary(this) && !SecondaryChannel().IsPrimary(this)
    {
      assert Channels[0] in Channels[0].Repr && Channels[1] in Channels[1].Repr;
    }

    /** A block whose index was never assigned (every mono block) has no primary channel; its primary slot is 1, which a mono block lacks. */
    lemma UnassignedHasNoPrimary(i: nat)
      requires Valid() && PrimaryChannelIndex.None? && i < |Channels|
      ensures !Channels[i].IsPrimary(this)
      ensures PrimarySlot() == 1 && SecondarySlot() == 0
    {
    }

    /** A stage that keeps the block's buffers at their sizes and its channels valid keeps the block valid. */
    twostate lemma StaysValid()
      requires old(Valid())
      requires |Gradient| == SCALE_FACTOR_SLOTS && |JointStereoSigns| == UNIT_SLOTS
      requires forall i :: 0 <= i < |Channels| ==> Channels[i].Valid()
      ensures Valid()
    {
    }

    /** The channels of a valid block: valid, at their slots, and two distinct objects in a stereo block. */
    lemma ChannelsValid()
      requires Valid()
      ensures forall i :: 0 <= i < |Channels| ==> Channels[i].Valid() && Channels[i].ChannelIndex == i
      ensures |Channels| == 2 ==> Channels[0] != Channels[1]
    {
      if |Channels| == 2 {
        assert Channels[0] in Channels[0].Repr && Channels[1] in Channels[1].Repr;
      }
    }
  }

  /**
   * `new Channel(block, i)`: the transform of the frame size over window `power - 6`,
   * then a channel with zeroed buffers around it.
   */
  method NewChannel(config: Atrac9Config, channelIndex: nat, windows: seq<array<real>>,
                    tables: M.MdctTables, trig: nat -> M.Trig)
    returns (r: Result<Channel, string>)
    requires FrameLayout(config) && |windows| == 3
    requires tables.Generated(trig) && M.TrigShaped(trig)
    modifies tables
    ensures tables.Generated(trig)
    ensures tables.tableBits == if config.FrameSamplesPower > old(tables.tableBits) then config.FrameSamplesPower else old(tables.tableBits)
    ensures config.FrameSamplesPower <= old(tables.tableBits) ==> unchanged(tables)
    ensures r.Failure? <==> windows[config.FrameSamplesPower - 6].Length < config.FrameSamples
    ensures r.Success? ==> (
      && fresh(r.value.Repr) && r.value.Valid()
      && r.value.ChannelIndex == channelIndex && r.value.Config == config
      && r.value.Mdct.tables == tables && r.value.Mdct.imdctWindow == windows[config.FrameSamplesPower - 6]
      && r.value.State() == InitialChannel()
      && (forall k :: 0 <= k < BIN_SLOTS ==> r.value.Pcm[k] == 0.0 && r.value.Spectra[k] == 0.0)
      && M.ZeroUpTo(r.value.Mdct.imdctPrevious, r.value.Mdct.mdctSize))
  {
    var power := config.FrameSamplesPower;
    var mdct :- M.NewMdct(power, windows[power - 6], 1.0, tables, trig);
    var channel := new Channel(channelIndex, config, mdct);
    return Success(channel);
  }

  /**
   * `new Block(frame, blockIndex)`: the block type from the configuration, then one
   * channel per channel the type carries.
   */
  method NewBlock(config: Atrac9Config, blockIndex: nat, windows: seq<array<real>>,
                  tables: M.MdctTables, trig: nat -> M.Trig)
    returns (r: Result<Block, string>)
    requires FrameLayout(config) && blockIndex < config.ChannelConfig.BlockCount && |windows| == 3
    requires tables.Generated(trig) && M.TrigShaped(trig)
    modifies tables
    ensures tables.Generated(trig) && tables.tableBits >= old(tables.tableBits)
    ensures tables.tableBits >= config.FrameSamplesPower
    ensures config.FrameSamplesPower <= old(tables.tableBits) ==> unchanged(tables)
    ensures r.Failure? <==> windows[config.FrameSamplesPower - 6].Length < config.FrameSamples
    ensures r.Success? ==> (
      && fresh(r.value.Repr) && r.value.Valid() && r.value.Tables == tables
      && r.value.Config == config && r.value.BlockIndex == blockIndex
      && r.value.BlockType == config.ChannelConfig.BlockTypes[blockIndex]
      && r.value.State() == InitialBlock()
      && BlockWindowed(r.value, windows[config.FrameSamplesPower - 6])
      && forall i :: 0 <= i < |r.value.Channels| ==> r.value.Channels[i].State() == InitialChannel())
  {
    var blockType := config.ChannelConfig.BlockTypes[blockIndex];
    var channels :- NewChannels(config, BlockTypeToChannelCount(blockType), windows, tables, trig);
    var block := new Block(config, blockIndex, blockType, channels, tables);
    return Success(block);
  }

  /** The channels of a block of `count` channels, each with its own transform. */
  method NewChannels(config: Atrac9Config, count: nat, windows: seq<array<real>>,
                     tables: M.MdctTables, trig: nat -> M.Trig)
    returns (r: Result<seq<Channel>, string>)
    requires FrameLayout(config) && 1 <= count <= 2 && |windows| == 3
    requires tables.Generated(trig) && M.TrigShaped(trig)
    modifies tables
    ensures tables.Generated(trig) && tables.tableBits >= old(tables.tableBits)
    ensures tables.tableBits >= config.FrameSamplesPower
    ensures config.FrameSamplesPower <= old(tables.tableBits) ==> unchanged(tables)
    ensures r.Failure? <==> windows[config.FrameSamplesPower - 6].Length < config.FrameSamples
    ensures r.Success? ==> (
      && |r.value| == count
      && (forall i :: 0 <= i < count ==>
            && fresh(r.value[i].Repr) && r.value[i].Valid()
            && r.value[i].ChannelIndex == i && r.value[i].Config == config && r.value[i].Mdct.tables == tables
            && r.value[i].Mdct.imdctWindow == windows[config.FrameSamplesPower - 6]
            && r.value[i].State() == InitialChannel())
      && (count == 2 ==> r.value[0].Repr !! r.value[1].Repr))
  {
    var first :- NewChannel(config, 0, windows, tables, trig);
    if count == 1 {
      return Success([first]);
    }
    // The second transform checks the same window against the same size, so it cannot fail.
    var second := NewChannel(config, 1, windows, tables, trig);
    if second.Success? {
      return Success([first, second.value]);
    } else {
      assert false;
    }
  }

  class Frame {
    const Config: Atrac9Config
    const Blocks: seq<Block>
    ghost const Tables: M.MdctTables
    /** The frame and everything its blocks own. */
    ghost const Repr: set<object>
    var FrameIndex: int

    ghost predicate Valid()
      reads this, Repr
    {
      && this in Repr
      && |Blocks| == Config.ChannelConfig.BlockCount == |Config.ChannelConfig.BlockTypes|
      && (forall i :: 0 <= i < |Blocks| ==> BlockOf(Blocks[i], i))
      && (forall i, j :: 0 <= i < j < |Blocks| ==> Blocks[i].Repr !! Blocks[j].Repr)
    }

    /** Block `b` sits at index i with the type the configuration lists there, and is valid. */
    ghost predicate BlockOf(b: Block, i: nat)
      reads this, Repr
      requires i < |Config.ChannelConfig.BlockTypes|
    {
      && b in b.Repr && b.Repr <= Repr && this !in b.Repr
      && b.BlockIndex == i && b.BlockType == Config.ChannelConfig.BlockTypes[i]
      && b.Config == Config && b.Tables == Tables && b.Valid()
    }

    constructor (config: Atrac9Config, blocks: seq<Block>, tables: M.MdctTables, ghost repr: set<object>)
      requires |blocks| == config.ChannelConfig.BlockCount == |config.ChannelConfig.BlockTypes|
      requires forall i :: 0 <= i < |blocks| ==>
        && blocks[i].Repr <= repr && blocks[i].BlockIndex == i
        && blocks[i].BlockType == config.ChannelConfig.BlockTypes[i]
        && blocks[i].Config == config && blocks[i].Tables == tables && blocks[i].Valid()
      requires forall i, j :: 0 <= i < j < |blocks| ==> blocks[i].Repr !! blocks[j].Repr
      ensures Valid()
      ensures Config == config && Blocks == blocks && Tables == tables && FrameIndex == 0
      ensures Repr == {this} + repr
    {
      Config := config;
      Blocks := blocks;
      Tables := tables;
      Repr := {this} + repr;
      FrameIndex := 0;
    }
  }

  /** The spectrum buffers of the channels, which the spectrum stages of a block write. */
  ghost function SpectrumBuffers(cs: seq<Channel>): set<object>
  {
    (if 1 <= |cs| then {cs[0].Spectra as object} else {}) + (if 2 <= |cs| then {cs[1].Spectra as object} else {})
  }

  /** Every channel of the blocks runs its transform over `window`. */
  predicate WindowedBy(blocks: seq<Block>, window: array<real>)
  {
    forall k :: 0 <= k < |blocks| ==> BlockWindowed(blocks[k], window)
  }

  /** Every channel of the block runs its transform over `window`. */
  predicate BlockWindowed(block: Block, window: array<real>)
  {
    forall i :: 0 <= i < |block.Channels| ==> block.Channels[i].Mdct.imdctWindow == window
  }

  /** The number of channels the blocks carry, block by block. */
  function BlockChannels(blocks: seq<Block>): nat
  {
    if |blocks| == 0 then 0 else BlockChannels(blocks[..|blocks| - 1]) + blocks[|blocks| - 1].ChannelCount
  }

  /** `new Frame(config)`: one block per entry of the configuration, in order, and frame index 0. */
  method NewFrame(config: Atrac9Config, windows: seq<array<real>>, tables: M.MdctTables, trig: nat -> M.Trig)
    returns (r: Result<Frame, string>)
    requires FrameLayout(config) && |windows| == 3
    requires tables.Generated(trig) && M.TrigShaped(trig)
    modifies tables
    ensures tables.Generated(trig) && tables.tableBits >= old(tables.tableBits)
    ensures r.Failure? <==> windows[config.FrameSamplesPower - 6].Length < config.FrameSamples
    ensures r.Success? ==> (
      && tables.tableBits >= config.FrameSamplesPower
      && fresh(r.value.Repr) && r.value.Valid() && r.value.Tables == tables
      && r.value.Config == config && r.value.FrameIndex == 0
      && BlockChannels(r.value.Blocks) == config.ChannelCount
      && WindowedBy(r.value.Blocks, windows[config.FrameSamplesPower - 6])
      && forall i :: 0 <= i < |r.value.Blocks| ==> r.value.Blocks[i].State() == InitialBlock())
  {
    ghost var repr;
    var blocks;
    blocks, repr :- NewBlocks(config, windows, tables, trig);
    var frame := new Frame(config, blocks, tables, repr);
    return Success(frame);
  }

  /** The loop of the frame constructor: block i for each index i of the configuration. */
  method NewBlocks(config: Atrac9Config, windows: seq<array<real>>, tables: M.MdctTables, trig: nat -> M.Trig)
    returns (r: Result<seq<Block>, string>, ghost repr: set<object>)
    requires FrameLayout(config) && |windows| == 3
    requires tables.Generated(trig) && M.TrigShaped(trig)
    modifies tables
    ensures tables.Generated(trig) && tables.tableBits >= old(tables.tableBits)
    ensures r.Failure? <==> windows[config.FrameSamplesPower - 6].Length < config.FrameSamples
    ensures r.Success? ==> (
      && tables.tableBits >= config.FrameSamplesPower
      && fresh(repr) && |r.value| == config.ChannelConfig.BlockCount
      && BlocksBuilt(r.value, config, tables, repr)
      && WindowedBy(r.value, windows[config.FrameSamplesPower - 6])
      && BlockChannels(r.value) == config.ChannelCount)
  {
    var count := config.ChannelConfig.BlockCount;
    ghost var bits0 := tables.tableBits;
    var blocks: seq<Block> := [];
    repr := {};
    assert config.ChannelConfig.BlockTypes[..0] == [];
    while |blocks| < count
      invariant fresh(repr) && Building(config, windows, tables, trig, blocks, repr, bits0)
      invariant WindowedBy(blocks, windows[config.FrameSamplesPower - 6])
      decreases count - |blocks|
    {
      var next;
      ghost var more;
      next, more := ExtendBlocks(config, windows, tables, trig, blocks, repr, bits0);
      if next.Failure? {
        return Failure(next.error), repr;
      }
      blocks, repr := next.value, repr + more;
    }
    assert config.ChannelConfig.BlockTypes[..count] == config.ChannelConfig.BlockTypes;
    return Success(blocks), repr;
  }

  /** The frame constructor's loop after |blocks| passes, with the transform tables at least bits0 wide. */
  ghost predicate Building(config: Atrac9Config, windows: seq<array<real>>, tables: M.MdctTables, trig: nat -> M.Trig,
                           blocks: seq<Block>, repr: set<object>, bits0: int)
    reads tables, repr
  {
    && FrameLayout(config) && |windows| == 3 && |blocks| <= config.ChannelConfig.BlockCount
    && tables.Generated(trig) && M.TrigShaped(trig) && tables.tableBits >= bits0
    && (|blocks| > 0 ==>
          && tables.tableBits >= config.FrameSamplesPower
          && windows[config.FrameSamplesPower - 6].Length >= config.FrameSamples)
    && BlocksBuilt(blocks, config, tables, repr)
    && BlockChannels(blocks) == TotalChannels(config.ChannelConfig.BlockTypes[..|blocks|])
  }

  /** One pass of the frame constructor's loop: the next block, appended to those built so far. */
  method ExtendBlocks(config: Atrac9Config, windows: seq<array<real>>, tables: M.MdctTables, trig: nat -> M.Trig,
                      blocks: seq<Block>, ghost repr: set<object>, ghost bits0: int)
    returns (r: Result<seq<Block>, string>, ghost more: set<object>)
    requires Building(config, windows, tables, trig, blocks, repr, bits0)
    requires |blocks| < config.ChannelConfig.BlockCount
    requires WindowedBy(blocks, windows[config.FrameSamplesPower - 6])
    modifies tables
    ensures tables.Generated(trig) && tables.tableBits >= bits0
    ensures r.Failure? <==> windows[config.FrameSamplesPower - 6].Length < config.FrameSamples
    ensures r.Success? ==> fresh(more) && Building(config, windows, tables, trig, r.value, repr + more, bits0)
    ensures r.Success? ==> |r.value| == |blocks| + 1
    ensures r.Success? ==> WindowedBy(r.value, windows[config.FrameSamplesPower - 6])
  {
    more := {};
    var block :- NewBlock(config, |blocks|, windows, tables, trig);
    AppendBlock(blocks, block, config.ChannelConfig.BlockTypes, |blocks|);
    BlocksBuiltAppend(blocks, block, config, tables, repr);
    WindowedAppend(blocks, block, windows[config.FrameSamplesPower - 6]);
    return Success(blocks + [block]), block.Repr;
  }

  lemma WindowedAppend(blocks: seq<Block>, block: Block, window: array<real>)
    requires WindowedBy(blocks, window) && BlockWindowed(block, window)
    ensures WindowedBy(blocks + [block], window)
  {
  }

  /** Blocks 0..|blocks| of a fresh frame: valid, pairwise disjoint, inside `repr` and untouched. */
  ghost predicate BlocksBuilt(blocks: seq<Block>, config: Atrac9Config, tables: M.MdctTables, repr: set<object>)
    reads repr
  {
    && |blocks| <= |config.ChannelConfig.BlockTypes|
    && (forall k :: 0 <= k < |blocks| ==>
          && blocks[k] in blocks[k].Repr && blocks[k].Repr <= repr && blocks[k].Tables == tables && blocks[k].Valid()
          && blocks[k].Config == config && blocks[k].BlockIndex == k
          && blocks[k].BlockType == config.ChannelConfig.BlockTypes[k] && blocks[k].Initial())
    && (forall k, j :: 0 <= k < j < |blocks| ==> blocks[k].Repr !! blocks[j].Repr)
  }

  lemma BlocksBuiltAppend(blocks: seq<Block>, block: Block, config: Atrac9Config, tables: M.MdctTables, repr: set<object>)
    requires BlocksBuilt(blocks, config, tables, repr) && |blocks| < |config.ChannelConfig.BlockTypes|
    requires block in block.Repr && block.Repr !! repr && block.Tables == tables && block.Valid()
    requires block.Config == config && block.BlockIndex == |blocks|
    requires block.BlockType == config.ChannelConfig.BlockTypes[|blocks|] && block.State() == InitialBlock()
    ensures BlocksBuilt(blocks + [block], config, tables, repr + block.Repr)
  {
    var all := blocks + [block];
    forall k, j | 0 <= k < j < |all|
      ensures all[k].Repr !! all[j].Repr
    {
      if j == |blocks| {
        assert all[k].Repr <= repr;
      }
    }
  }

  /** One more block adds its type's channels to the running total. */
  lemma AppendBlock(blocks: seq<Block>, block: Block, types: seq<int>, i: nat)
    requires |blocks| == i < |types| && BlockChannels(blocks) == TotalChannels(types[..i])
    requires block.ChannelCount == BlockTypeToChannelCount(types[i])
    ensures BlockChannels(blocks + [block]) == TotalChannels(types[..i + 1])
  {
    assert types[..i + 1][..i] == types[..i];
    assert (blocks + [block])[..i] == blocks;
  }
}
