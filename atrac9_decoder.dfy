/**
 * `Atrac9Decoder`: the decoder object. `initialize` parses the four-byte configuration and
 * builds the frame and an empty bit reader; `decode` checks the caller's buffers, points the
 * reader at the superframe's bytes and decodes the superframe into 16-bit outputs.
 */
module Atrac9Decoders {
  import opened JsInt
  import opened Wrappers
  import opened ChannelConfigs
  import opened Config
  import opened RuntimeTables
  import opened DecodeState
  import opened BitStream
  import opened BitReading
  import opened Unpacking
  import opened BlockUnpacking
  import opened FrameUnpacking
  import opened PcmOutput
  import opened Decoding
  import opened Superframes
  import opened DecoderStates
  import M = Mdct
  import B = BandExtension

  /**
   * The buffers `decode` accepts: a superframe's bytes at least, and one output per channel,
   * each present and with room for a superframe of samples.
   */
  predicate BuffersFit(config: Atrac9Config, atrac9: Option<seq<byte>>, pcmOut: Option<seq<array?<uint16>>>)
  {
    && atrac9.Some? && pcmOut.Some?
    && config.SuperframeBytes <= |atrac9.value| && config.ChannelCount <= |pcmOut.value|
    && forall c :: 0 <= c < config.ChannelCount ==> pcmOut.value[c] != null && config.SuperframeSamples <= pcmOut.value[c].Length
  }

  /** The outputs the caller passes are separate arrays. */
  predicate OutputsDistinct(pcmOut: Option<seq<array?<uint16>>>)
  {
    pcmOut.Some? ==> forall i, j :: 0 <= i < j < |pcmOut.value| && pcmOut.value[i] != null ==> pcmOut.value[i] != pcmOut.value[j]
  }

  /**
   * What `validateDecodeBuffers` decides: without a configuration "uninitialized"; otherwise the
   * checks in order: the ATRAC9 buffer is present, the outputs are present, the buffer holds a
   * superframe, and the outputs fit. Each error comes exactly from its own check failing first,
   * and the buffers pass exactly when they fit.
   */
  function BufferCheck(config: Option<Atrac9Config>, atrac9: Option<seq<byte>>, pcmOut: Option<seq<array?<uint16>>>)
    : (r: Outcome<DecoderError>)
    ensures r == Fail(Uninitialized) <==> config.None?
    ensures config.Some? ==> (r.Pass? <==> BuffersFit(config.value, atrac9, pcmOut))
    ensures r == Fail(MissingAtrac9Buffer) <==> config.Some? && atrac9.None?
    ensures r == Fail(MissingPcmBuffer) <==> config.Some? && atrac9.Some? && pcmOut.None?
    ensures r == Fail(Atrac9BufferTooSmall) <==>
      config.Some? && atrac9.Some? && pcmOut.Some? && |atrac9.value| < config.value.SuperframeBytes
    ensures r == Fail(PcmBufferTooSmall) <==>
      && config.Some? && atrac9.Some? && pcmOut.Some? && config.value.SuperframeBytes <= |atrac9.value|
      && !BuffersFit(config.value, atrac9, pcmOut)
  {
    if config.None? then Fail(Uninitialized)
    else if atrac9.None? then Fail(MissingAtrac9Buffer)
    else if pcmOut.None? then Fail(MissingPcmBuffer)
    else if |atrac9.value| < config.value.SuperframeBytes then Fail(Atrac9BufferTooSmall)
    else if |pcmOut.value| < config.value.ChannelCount then Fail(PcmBufferTooSmall)
    else if exists c :: 0 <= c < config.value.ChannelCount && (pcmOut.value[c] == null || pcmOut.value[c].Length < config.value.SuperframeSamples)
    then Fail(PcmBufferTooSmall)
    else Pass
  }

  /**
   * `validateDecodeBuffers`: the checks one by one, the outputs channel by channel, deciding
   * what `BufferCheck` decides.
   */
  method ValidateDecodeBuffers(configuration: Option<Atrac9Config>, atrac9: Option<seq<byte>>, pcmOut: Option<seq<array?<uint16>>>) returns (r: Outcome<DecoderError>)
    ensures r == BufferCheck(configuration, atrac9, pcmOut)
  {
    if configuration.None? {
      return Fail(Uninitialized);
    }
    var config := configuration.value;
    if atrac9.None? {
      return Fail(MissingAtrac9Buffer);
    }
    if pcmOut.None? {
      return Fail(MissingPcmBuffer);
    }
    if |atrac9.value| < config.SuperframeBytes {
      return Fail(Atrac9BufferTooSmall);
    }
    var outputs := pcmOut.value;
    if |outputs| < config.ChannelCount {
      return Fail(PcmBufferTooSmall);
    }
    for c := 0 to config.ChannelCount
      invariant forall k :: 0 <= k < c ==> outputs[k] != null && config.SuperframeSamples <= outputs[k].Length
    {
      if outputs[c] == null || outputs[c].Length < config.SuperframeSamples {
        return Fail(PcmBufferTooSmall);
      }
    }
    r := Pass;
  }

  /** The outputs of the first n channels, every one of them present. */
  function ChannelOutputs(pcmOut: seq<array?<uint16>>, n: nat): (r: seq<array<uint16>>)
    requires n <= |pcmOut| && forall c :: 0 <= c < n ==> pcmOut[c] != null
    ensures |r| == n && forall c :: 0 <= c < n ==> r[c] == pcmOut[c]
  {
    if n == 0 then [] else ChannelOutputs(pcmOut, n - 1) + [pcmOut[n - 1]]
  }

  /** Buffers that fit give one separate output per channel, each with room for a superframe. */
  lemma ChannelsFit(config: Atrac9Config, atrac9: Option<seq<byte>>, pcmOut: Option<seq<array?<uint16>>>)
    requires BuffersFit(config, atrac9, pcmOut) && OutputsDistinct(pcmOut)
    ensures atrac9.Some? && pcmOut.Some? && config.ChannelCount <= |pcmOut.value|
    ensures forall c :: 0 <= c < config.ChannelCount ==> pcmOut.value[c] != null
    ensures OutputsFit(ChannelOutputs(pcmOut.value, config.ChannelCount), config.ChannelCount, config.SuperframeSamples)
  {
  }

  /** The window tables, one per frame size 64, 128 and 256, each covering its frame. */
  predicate WindowsCover(windows: seq<array<real>>)
  {
    |windows| == 3 && forall p :: 0 <= p < 3 ==> Pow2(p + 6) <= windows[p].Length
  }

  class Atrac9Decoder {
    var Initialized: bool
    var Config: Option<Atrac9Config>
    var Frame: Frame?
    var Reader: BitReader?

    /** An initialized decoder holds a configuration, a frame ready to decode it and a valid reader. */
    ghost predicate Valid()
      reads this, Reader, Frame, if Frame == null then {} else ReadyReads(Frame)
    {
      Initialized ==> Config.Some? && Frame != null && Reader != null && DecoderReady(Config.value, Frame, Reader)
    }

    /** `new Atrac9Decoder()`: not initialized. */
    constructor ()
      ensures Valid() && !Initialized && Config.None?
    {
      Initialized := false;
      Config := None;
      Frame := null;
      Reader := null;
    }

    /**
     * `initialize(configData)`: a descriptor that does not parse throws and leaves the decoder as
     * it was; one that parses becomes the configuration, with a new frame in its initial state
     * and a reader without a buffer, and the decoder is initialized.
     */
    method Initialize(configData: Option<seq<byte>>, windows: seq<array<real>>, tables: M.MdctTables, trig: nat -> M.Trig)
      returns (r: Outcome<DecoderError>)
      requires Valid() && WindowsCover(windows)
      requires tables.Generated(trig) && M.TrigShaped(trig)
      modifies this, tables
      ensures Valid()
      ensures r.Fail? <==> ParseConfig(configData).Failure?
      ensures r.Fail? ==> r.error == BadConfig(ParseConfig(configData).error) && unchanged(this)
      ensures r.Pass? ==>
        && Initialized && Config == Some(ParseConfig(configData).value)
        && Frame.FrameIndex == 0 && Reader.buffer.None? && Reader.position == 0
        && forall i :: 0 <= i < |Frame.Blocks| ==> Frame.Blocks[i].Initial()
    {
      var parsed := ParseConfig(configData);
      if parsed.Failure? {
        return Fail(BadConfig(parsed.error));
      }
      var config := parsed.value;
      var frame, reader, window := NewParts(config, windows, tables, trig);
      Install(config, frame, reader, window);
      r := Pass;
    }

    /** The assignments of `initialize`: the configuration, the frame and the reader, and the decoder initialized. */
    method Install(config: Atrac9Config, frame: Frame, reader: BitReader, ghost window: array<real>)
      requires Built(config, frame, window) && this !in frame.Repr && this as object != reader && reader.Valid()
      modifies this
      ensures Valid() && Initialized && Config == Some(config) && Frame == frame && Reader == reader
      ensures Frame.FrameIndex == 0 && forall i :: 0 <= i < |Frame.Blocks| ==> Frame.Blocks[i].Initial()
    {
      Assign(config, frame, reader, window);
      InitialReady(frame, window);
      ReadyValid();
    }

    /** The field updates alone: the frame and the reader they install are as they were. */
    method Assign(config: Atrac9Config, frame: Frame, reader: BitReader, ghost window: array<real>)
      requires Built(config, frame, window) && this !in frame.Repr && this as object != reader && reader.Valid()
      modifies this
      ensures Initialized && Config == Some(config) && Frame == frame && Reader == reader
      ensures Built(config, frame, window) && reader.Valid()
    {
      Config, Frame, Reader, Initialized := Some(config), frame, reader, true;
    }

    /**
     * What `decode` may write besides the reader and the frame: the frame's objects and buffers,
     * and, when the buffers fit, the outputs of the channels.
     */
    ghost function Writes(pcmOut: Option<seq<array?<uint16>>>): set<object>
      reads this, Frame
    {
      (if Frame == null then {} else FrameObjects(Frame) + FrameBuffers(Frame))
        + if Config.Some? && pcmOut.Some? && Config.value.ChannelCount <= |pcmOut.value|
             && forall c :: 0 <= c < Config.value.ChannelCount ==> pcmOut.value[c] != null
          then Outputs(ChannelOutputs(pcmOut.value, Config.value.ChannelCount)) else {}
    }

    /** A valid decoder, once initialized, holds a configuration, a frame and a reader, ready to decode. */
    lemma ValidParts()
      requires Valid() && Initialized
      ensures Config.Some? && Frame != null && Reader != null && DecoderReady(Config.value, Frame, Reader)
    {
    }

    /** A decoder whose frame and reader are ready is valid. */
    lemma ReadyValid()
      requires Initialized && Config.Some? && Frame != null && Reader != null
      requires DecoderReady(Config.value, Frame, Reader)
      ensures Valid()
    {
    }

    /**
     * `decode(atrac9Data, pcmOut)`: before `initialize` it throws; buffers that do not fit throw
     * with nothing changed; otherwise the reader reads the superframe's bytes from the start and
     * the outputs hold the frames decoded, written as `SuperframeSample` says, up to the first
     * frame that fails.
     */
    method Decode(atrac9: Option<seq<byte>>, pcmOut: Option<seq<array?<uint16>>>, t: CodecTables, exp2: real -> real)
      returns (r: Outcome<DecoderError>, ghost decoded: seq<seq<seq<real>>>, ghost outputs: seq<array<uint16>>,
               ghost run: SuperframeRun)
      requires Valid() && ScaleFactorTables(t) && SpectrumTables(t) && B.BexLayout(t) && OutputsDistinct(pcmOut)
      modifies Reader, Frame, Writes(pcmOut)
      ensures !Initialized ==> r == Fail(NotInitialized)
      ensures Initialized && !BuffersFit(Config.value, atrac9, pcmOut) ==>
        && r.Fail? && r.error in {MissingAtrac9Buffer, MissingPcmBuffer, Atrac9BufferTooSmall, PcmBufferTooSmall}
      ensures !(Initialized && BuffersFit(Config.value, atrac9, pcmOut)) ==>
        && (Reader != null ==> unchanged(Reader))
        && (Frame != null ==> unchanged(Frame) && FrameView(Frame) == old(FrameView(Frame)))
        && (pcmOut.Some? ==> forall c :: 0 <= c < |pcmOut.value| && pcmOut.value[c] != null ==> unchanged(pcmOut.value[c]))
      ensures Initialized && BuffersFit(Config.value, atrac9, pcmOut) ==>
        && outputs == ChannelOutputs(pcmOut.value, Config.value.ChannelCount)
        && DecodedInto(Config.value, Frame, Reader, atrac9, t, exp2, r, decoded, run,
             old(FrameView(Frame)), FrameView(Frame), old(Snapshot(outputs)), Snapshot(outputs))
      ensures Valid()
    {
      hide DecodedInto, Ready, Snapshot;
      decoded, outputs, run := [], [], SuperframeRun([], [], []);
      if !Initialized {
        return Fail(NotInitialized), decoded, outputs, run;
      }
      r := BufferCheck(Config, atrac9, pcmOut);
      if r.Fail? {
        return;
      }
      r, decoded, outputs, run := DecodeFitted(atrac9, pcmOut, t, exp2);
    }

    /** `decode` once the buffers fit: the reader set to the bytes, then the superframe decoded into the channel outputs. */
    method DecodeFitted(atrac9: Option<seq<byte>>, pcmOut: Option<seq<array?<uint16>>>, t: CodecTables, exp2: real -> real)
      returns (r: Outcome<DecoderError>, ghost decoded: seq<seq<seq<real>>>, ghost outputs: seq<array<uint16>>,
               ghost run: SuperframeRun)
      requires Valid() && Initialized && BuffersFit(Config.value, atrac9, pcmOut) && OutputsDistinct(pcmOut)
      requires ScaleFactorTables(t) && SpectrumTables(t) && B.BexLayout(t)
      modifies Reader, Frame, FrameObjects(Frame), FrameBuffers(Frame), Outputs(ChannelOutputs(pcmOut.value, Config.value.ChannelCount))
      ensures Initialized && Config == old(Config) && Frame == old(Frame) && Reader == old(Reader)
      ensures outputs == ChannelOutputs(pcmOut.value, Config.value.ChannelCount)
      ensures DecodedInto(Config.value, Frame, Reader, atrac9, t, exp2, r, decoded, run,
        old(FrameView(Frame)), FrameView(Frame), old(Snapshot(outputs)), Snapshot(outputs))
      ensures Valid()
    {
      hide *;
      ValidParts();
      ChannelsFit(Config.value, atrac9, pcmOut);
      var channels := ChannelOutputs(pcmOut.value, Config.value.ChannelCount);
      outputs := channels;
      Apart(Frame, Reader, channels);
      ghost var first, previous := FrameView(Frame), Snapshot(channels);
      r, decoded, run := DecodeChannels(Config.value, Frame, Reader, atrac9, channels, t, exp2);
      DecodedIntoOf(Config.value, Frame, Reader, atrac9, t, exp2, r, decoded, run, first, FrameView(Frame), previous, Snapshot(channels));
      ReadyValid();
    }

    /** The decoder is none of the objects decoding writes. */
    lemma Apart(frame: Frame, reader: BitReader, outputs: seq<array<uint16>>)
      ensures this !in FrameObjects(frame) && this !in FrameBuffers(frame) && this !in Outputs(outputs)
      ensures this as object != frame && this as object != reader
    {
    }

  }

  /** `setBuffer(atrac9Data)` then `decodeSuperFrame` into one output per channel. */
  method DecodeChannels(config: Atrac9Config, frame: Frame, reader: BitReader, atrac9: Option<seq<byte>>,
                        outputs: seq<array<uint16>>, t: CodecTables, exp2: real -> real)
    returns (r: Outcome<DecoderError>, ghost decoded: seq<seq<seq<real>>>, ghost run: SuperframeRun)
    requires DecoderReady(config, frame, reader) && atrac9.Some?
    requires |outputs| == config.ChannelCount && OutputsFit(outputs, config.ChannelCount, config.SuperframeSamples)
    requires ScaleFactorTables(t) && SpectrumTables(t) && B.BexLayout(t)
    modifies reader, frame, FrameObjects(frame), FrameBuffers(frame), Outputs(outputs)
    ensures DecoderReady(config, frame, reader)
    ensures SuperframeRead(config, frame, reader, atrac9, r, decoded)
    ensures Spans(run, old(FrameView(frame)), FrameView(frame))
    ensures WrittenValues(Snapshot(outputs), old(Snapshot(outputs)), decoded, config.ChannelCount, config.FrameSamples)
    ensures ReadFromBytes(config, frame, atrac9, t, exp2, r, decoded, run)
  {
    hide SuperframeDecoded, Spans, FrameView, Ready, FrameStepped, FrameDecoded, FrameReady;
    ghost var previous := Snapshot(outputs);
    Point(config, frame, reader, atrac9);
    var outcome;
    outcome, decoded, run := DecodeSuperFrame(reader, frame, outputs, t, exp2);
    r := if outcome.Pass? then Pass else Fail(BadFrame(outcome.error));
    WrittenSnapshot(outputs, Snapshot(outputs), previous, decoded, config.ChannelCount, config.FrameSamples);
  }

  /** `setBuffer(atrac9Data)`: the reader reads the bytes from the start; the frame stays ready. */
  method Point(config: Atrac9Config, frame: Frame, reader: BitReader, atrac9: Option<seq<byte>>)
    requires DecoderReady(config, frame, reader) && atrac9.Some?
    modifies reader
    ensures DecoderReady(config, frame, reader)
    ensures reader.buffer == atrac9 && reader.bits == StreamBits(atrac9.value) && reader.position == 0
    ensures FrameView(frame) == old(FrameView(frame))
  {
    hide FrameView, BlockParts, Ready;
    Superframes.ReadyParts(frame);
    FrameApartFromOutputs(reader, frame, []);
    ReaderOutsideViews(reader, frame);
    reader.SetBuffer(atrac9);
    FrameKept(frame);
    ReadyWhole(frame);
    FrameViewUnmoved(frame);
  }

  /** The reader is none of the objects the frame's values live in. */
  lemma ReaderOutsideViews(reader: BitReader, frame: Frame)
    ensures forall i, o :: 0 <= i < |frame.Blocks| && o in BlockParts(frame.Blocks[i]) ==> allocated(o) && o != reader
  {
  }

  /** `new Frame(this.Config)` and `new BitReader(null)`: a frame in its initial state and a reader without a buffer. */
  method NewParts(config: Atrac9Config, windows: seq<array<real>>, tables: M.MdctTables, trig: nat -> M.Trig)
    returns (frame: Frame, reader: BitReader, ghost window: array<real>)
    requires ValidConfig(config) && WindowsCover(windows)
    requires tables.Generated(trig) && M.TrigShaped(trig)
    modifies tables
    ensures fresh(reader) && reader.Valid() && reader.buffer.None? && reader.position == 0
    ensures fresh(frame.Repr) && Built(config, frame, window)
  {
    ValidLayout(config);
    FrameFits(config.FrameSamplesPower);
    var r := NewFrame(config, windows, tables, trig);
    if r.Failure? {
      assert false;
    }
    frame, window := r.value, windows[config.FrameSamplesPower - 6];
    reader := new BitReader(None);
  }

  /**
   * A frame as `new Frame(config)` leaves it: valid, at index 0, every block in its initial
   * state, every channel's transform over `window` with tables wide enough for it.
   */
  ghost predicate Built(config: Atrac9Config, frame: Frame, window: array<real>)
    reads frame, frame.Repr, frame.Tables
  {
    && frame.Valid() && frame.Config == config && frame.FrameIndex == 0
    && FrameLayout(config) && config.SampleRateIndex < 16 && config.FrameSamples > 0
    && config.SuperframeSamples == config.FramesPerSuperframe * config.FrameSamples
    && frame.Tables.Shaped() && frame.Tables.tableBits >= config.FrameSamplesPower
    && BlockChannels(frame.Blocks) == config.ChannelCount
    && WindowedBy(frame.Blocks, window)
    && forall i :: 0 <= i < |frame.Blocks| ==> frame.Blocks[i].Initial()
  }

  /** A frame just built, with the tables wide enough for its transforms, is ready to decode. */
  lemma InitialReady(frame: Frame, window: array<real>)
    requires frame.Valid() && FrameLayout(frame.Config) && frame.Config.SampleRateIndex < 16
    requires frame.Tables.Shaped() && frame.Tables.tableBits >= frame.Config.FrameSamplesPower
    requires BlockChannels(frame.Blocks) == frame.Config.ChannelCount
    requires WindowedBy(frame.Blocks, window)
    requires forall i :: 0 <= i < |frame.Blocks| ==> frame.Blocks[i].Initial()
    ensures Ready(frame) && SamplesFit(frame.Blocks, frame.Config.FrameSamples)
    ensures |FrameChannels(frame.Blocks)| == frame.Config.ChannelCount
  {
    forall i | 0 <= i < |frame.Blocks|
      ensures IsBlockType(frame.Blocks[i].BlockType) && UnitCounts(frame.Blocks[i].State())
    {
      assert frame.BlockOf(frame.Blocks[i], i);
    }
    FrameParts(frame);
    forall i | 0 <= i < |frame.Blocks|
      ensures TransformsApart(frame.Blocks[i].Channels)
    {
      assert frame.BlockOf(frame.Blocks[i], i);
      BlockReadyToTransform(frame.Blocks[i], frame.Tables, window);
    }
    WindowOutside(frame, window);
    FrameChannelsCount(frame.Blocks);
    FrameFits(frame.Config.FrameSamplesPower);
    forall c | 0 <= c < |FrameChannels(frame.Blocks)|
      ensures frame.Config.FrameSamples <= FrameChannels(frame.Blocks)[c].Pcm.Length
    {
      var b, k := FrameChannelOf(frame.Blocks, c);
      assert frame.BlockOf(frame.Blocks[b], b);
      assert frame.Blocks[b].ChannelOf(frame.Blocks[b].Channels[k], k);
    }
  }

  /** One window that no channel owns is none of the buffers any block's stages write. */
  lemma WindowOutside(frame: Frame, window: array<real>)
    requires frame.Valid() && WindowedBy(frame.Blocks, window)
    ensures WindowsOutside(frame)
  {
    forall i, k | 0 <= i < |frame.Blocks| && 0 <= k < |frame.Blocks[i].Channels|
      ensures frame.Blocks[i].Channels[k].Mdct.imdctWindow == window
      ensures window !in {frame.Blocks[i].Channels[k].Spectra as object} + ChannelTransformBuffers(frame.Blocks[i].Channels[k])
    {
      assert frame.BlockOf(frame.Blocks[i], i);
      assert frame.Blocks[i].ChannelOf(frame.Blocks[i].Channels[k], k);
    }
  }

  /** A valid block of a laid-out frame, sharing wide enough tables and one window, can transform its channels apart. */
  lemma BlockReadyToTransform(block: Block, tables: M.MdctTables, window: array<real>)
    requires block.Valid() && Decodable(block) && FrameLayout(block.Config) && block.Tables == tables
    requires tables.Shaped() && tables.tableBits >= block.Config.FrameSamplesPower
    requires BlockWindowed(block, window)
    ensures TransformsApart(block.Channels)
  {
    forall k | 0 <= k < |block.Channels|
      ensures block.Channels[k].Mdct.Valid() && block.Channels[k].Mdct.imdctWindow == window && window !in block.Channels[k].Repr
    {
      assert block.ChannelOf(block.Channels[k], k);
    }
    BlockTransformsApart(block);
  }
}
