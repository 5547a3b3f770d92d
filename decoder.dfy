/**
 * `Atrac9Decoder`: the object a caller initializes with the four configuration bytes and then
 * hands one superframe at a time, together with the order in which a frame runs the decoding
 * stages and the window of the 16-bit output each frame fills.
 */
module Decoding {
  import opened JsInt
  import opened Wrappers
  import opened Helpers
  import opened ChannelConfigs
  import opened Config
  import opened RuntimeTables
  import opened DecodeState
  import opened BitReading
  import opened BlockUnpacking
  import opened FrameUnpacking
  import opened Overlap
  import M = Mdct
  import Q = Quantization
  import S = Stereo
  import B = BandExtension

  // ---------------------------------------------------------------------------------------
  // The stages of one block

  /** The slot of the channel whose spectrum intensity stereo reads for channel j: the primary one in stereo, j itself otherwise. */
  function SourceSlot(b: BlockState, blockType: int, j: nat): nat
  {
    if blockType == STEREO then (if b.PrimaryChannelIndex == Some(0) then 0 else 1) else j
  }

  /**
   * Channel j's spectrum after the intensity stereo stage, from the spectrum of its source slot
   * and its own: rebuilt for the secondary channel of a stereo block, kept otherwise.
   */
  function StereoSpectrum(b: BlockState, blockType: int, source: seq<real>, own: seq<real>, j: nat): (r: seq<real>)
    requires |source| == BIN_SLOTS && |own| == BIN_SLOTS && |b.JointStereoSigns| == UNIT_SLOTS
    ensures |r| == BIN_SLOTS
  {
    if blockType == STEREO && j != SourceSlot(b, blockType, j) then
      S.IntensityStereo(source, own, b.JointStereoSigns, b.StereoQuantizationUnit, b.QuantizationUnitCount)
    else own
  }

  /**
   * Channel j's spectrum as band extension finds it: dequantized, then, for the secondary channel
   * of a stereo block, rebuilt from the primary spectrum by intensity stereo, then scaled.
   */
  function PreSpectrum(b: BlockState, blockType: int, cs: seq<ChannelState>, j: nat, t: CodecTables): (r: seq<real>)
    requires |cs| == BlockTypeToChannelCount(blockType) && j < |cs|
    requires forall k :: 0 <= k < |cs| ==> ChannelSized(cs[k])
    requires |b.JointStereoSigns| == UNIT_SLOTS
    ensures |r| == BIN_SLOTS
  {
    var source := SourceSlot(b, blockType, j);
    var spectrum := StereoSpectrum(b, blockType, Q.Dequantized(cs[source], t), Q.Dequantized(cs[j], t), j);
    Q.Scaled(spectrum, cs[j].ScaleFactors, b.QuantizationUnitCount, t)
  }

  /**
   * The first three spectrum stages of `decodeFrame` for one block: dequantize, intensity stereo,
   * scale. They leave in each channel's spectrum its `PreSpectrum`.
   */
  method PrepareSpectra(block: Block, t: CodecTables)
    requires Decodable(block)
    modifies SpectrumBuffers(block.Channels)
    ensures old(SizedStates(block))
    ensures block.Channels[0].Spectra[..] == old(PreSpectrum(block.State(), block.BlockType, ChannelStates(block.Channels), 0, t))
    ensures |block.Channels| == 2 ==>
      block.Channels[1].Spectra[..] == old(PreSpectrum(block.State(), block.BlockType, ChannelStates(block.Channels), 1, t))
  {
    ChannelsOutsideSpectra(block);
    Q.DequantizeSpectra(block, t);
    StereoThenScale(block, t);
  }

  /**
   * The second and third spectrum stages: the secondary spectrum of a stereo block rebuilt by
   * intensity stereo, then every spectrum scaled.
   */
  method StereoThenScale(block: Block, t: CodecTables)
    requires Decodable(block)
    modifies SpectrumBuffers(block.Channels)
    ensures var s := SourceSlot(block.State(), block.BlockType, 0);
      block.Channels[0].Spectra[..] ==
        Q.Scaled(StereoSpectrum(block.State(), block.BlockType, old(block.Channels[s].Spectra[..]), old(block.Channels[0].Spectra[..]), 0),
          block.Channels[0].ScaleFactors, block.QuantizationUnitCount, t)
    ensures |block.Channels| == 2 ==>
      var s := SourceSlot(block.State(), block.BlockType, 1);
      block.Channels[1].Spectra[..] ==
        Q.Scaled(StereoSpectrum(block.State(), block.BlockType, old(block.Channels[s].Spectra[..]), old(block.Channels[1].Spectra[..]), 1),
          block.Channels[1].ScaleFactors, block.QuantizationUnitCount, t)
  {
    ChannelsOutsideSpectra(block);
    S.ApplyIntensityStereo(block);
    Q.ScaleSpectrum(block, t);
  }

  /**
   * The four spectrum stages of `decodeFrame` for one block: dequantize, intensity stereo, scale,
   * band extension. They fail exactly when band extension throws; when they pass, each channel's
   * spectrum and state are those of `ExtensionStage` over `PreExtension`. No PCM buffer and no
   * overlap history changes.
   */
  method SpectrumStages(block: Block, t: CodecTables, exp2: real -> real) returns (r: Outcome<DecodeError>)
    requires Decodable(block) && B.BexLayout(t)
    modifies block.Channels, SpectrumBuffers(block.Channels)
    ensures Decodable(block)
    ensures r.Fail? <==> B.ExtensionFails(block.State())
    ensures old(SizedStates(block))
    ensures
      && B.ExtensionStage(block.State(), old(block.Channels[0].State()),
           old(PreSpectrum(block.State(), block.BlockType, ChannelStates(block.Channels), 0, t)),
           block.Channels[0].State(), block.Channels[0].Spectra[..], t, exp2)
      && (|block.Channels| == 2 ==>
           B.ExtensionStage(block.State(), old(block.Channels[1].State()),
             old(PreSpectrum(block.State(), block.BlockType, ChannelStates(block.Channels), 1, t)),
             block.Channels[1].State(), block.Channels[1].Spectra[..], t, exp2))
  {
    hide B.ExtensionStage, PreSpectrum, B.ExtensionFails;
    ChannelsOutsideSpectra(block);
    PrepareSpectra(block, t);
    assert block.Channels[0].State() == old(block.Channels[0].State());
    assert |block.Channels| == 2 ==> block.Channels[1].State() == old(block.Channels[1].State());
    r := B.ApplyBandExtension(block, t, exp2);
  }

  /**
   * One block of `decodeFrame`: the four spectrum stages, then `imdctBlock`. A block whose band
   * extension throws ends the frame before its transforms run. Otherwise each channel ends with
   * the state and spectrum band extension left, and its PCM buffer and overlap history are the
   * transform of that spectrum after the history the channel had.
   */
  method DecodeBlock(block: Block, t: CodecTables, exp2: real -> real) returns (r: Outcome<DecodeError>)
    requires Decodable(block) && B.BexLayout(t) && TransformsApart(block.Channels)
    modifies block.Channels, SpectrumBuffers(block.Channels), TransformBuffers(block.Channels)
    ensures Decodable(block) && TransformsApart(block.Channels)
    ensures r.Fail? <==> B.ExtensionFails(block.State())
    ensures old(SizedStates(block))
    ensures r.Pass? ==>
      && B.ExtensionStage(block.State(), old(block.Channels[0].State()),
           old(PreSpectrum(block.State(), block.BlockType, ChannelStates(block.Channels), 0, t)),
           block.Channels[0].State(), block.Channels[0].Spectra[..], t, exp2)
      && Transformable(block.Channels[0])
      && Transformed(block.Channels[0], old(block.Channels[0].Mdct.imdctPrevious[..]),
           old(block.Channels[0].Pcm[block.Channels[0].Mdct.mdctSize..]))
    ensures r.Pass? && |block.Channels| == 2 ==>
      && B.ExtensionStage(block.State(), old(block.Channels[1].State()),
           old(PreSpectrum(block.State(), block.BlockType, ChannelStates(block.Channels), 1, t)),
           block.Channels[1].State(), block.Channels[1].Spectra[..], t, exp2)
      && Transformable(block.Channels[1])
      && Transformed(block.Channels[1], old(block.Channels[1].Mdct.imdctPrevious[..]),
           old(block.Channels[1].Pcm[block.Channels[1].Mdct.mdctSize..]))
  {
    TransformsOutsideStages(block.Channels);
    r := SpectrumStages(block, t, exp2);
    TransformsKept(block.Channels);
    if r.Fail? {
      return;
    }
    TransformStage(block, old(block.Channels[0].Mdct.imdctPrevious[..]),
      old(block.Channels[0].Pcm[block.Channels[0].Mdct.mdctSize..]),
      if |block.Channels| == 2 then old(block.Channels[1].Mdct.imdctPrevious[..]) else [],
      if |block.Channels| == 2 then old(block.Channels[1].Pcm[block.Channels[1].Mdct.mdctSize..]) else []);
  }

  /**
   * `imdctBlock` after the spectrum stages: the transforms run from the history and PCM tail
   * given, and leave each channel's state and spectrum as they were.
   */
  method TransformStage(block: Block, ghost h0: seq<real>, ghost r0: seq<real>, ghost h1: seq<real>, ghost r1: seq<real>)
    requires Decodable(block) && TransformsApart(block.Channels)
    requires var c := block.Channels[0];
      c.Mdct.imdctPrevious[..] == h0 && c.Pcm[c.Mdct.mdctSize..] == r0
    requires |block.Channels| == 2 ==> var c := block.Channels[1];
      c.Mdct.imdctPrevious[..] == h1 && c.Pcm[c.Mdct.mdctSize..] == r1
    modifies TransformBuffers(block.Channels)
    ensures Decodable(block) && TransformsApart(block.Channels)
    ensures block.State() == old(block.State())
    ensures var c := block.Channels[0];
      && c.State() == old(c.State()) && c.Spectra[..] == old(c.Spectra[..])
      && Transformable(c) && Transformed(c, h0, r0)
    ensures |block.Channels| == 2 ==> var c := block.Channels[1];
      && c.State() == old(c.State()) && c.Spectra[..] == old(c.Spectra[..])
      && Transformable(c) && Transformed(c, h1, r1)
  {
    StagesOutsideTransforms(block);
    ImdctBlock(block);
    BlockKept(block);
  }

  /**
   * Stages that leave the transforms' tables and written buffers alone keep the transforms
   * apart and their history and PCM tail as they were.
   */
  twostate lemma TransformsKept(cs: seq<Channel>)
    requires old(TransformsApart(cs))
    requires unchanged(cs[0].Mdct.tables, cs[0].Mdct.imdctPrevious, cs[0].Pcm)
    requires |cs| == 2 ==> unchanged(cs[1].Mdct.tables, cs[1].Mdct.imdctPrevious, cs[1].Pcm)
    ensures TransformsApart(cs)
    ensures var c := cs[0];
      c.Mdct.imdctPrevious[..] == old(c.Mdct.imdctPrevious[..]) && c.Pcm[c.Mdct.mdctSize..] == old(c.Pcm[c.Mdct.mdctSize..])
    ensures |cs| == 2 ==> var c := cs[1];
      c.Mdct.imdctPrevious[..] == old(c.Mdct.imdctPrevious[..]) && c.Pcm[c.Mdct.mdctSize..] == old(c.Pcm[c.Mdct.mdctSize..])
  {
  }

  /** The transforms' tables and written buffers are neither channels nor spectra. */
  lemma TransformsOutsideStages(cs: seq<Channel>)
    requires TransformsApart(cs)
    ensures KeptByStages(cs, cs[0])
    ensures |cs| == 2 ==> KeptByStages(cs, cs[1])
  {
  }

  /** Channel c's transform tables and written buffers are neither channels nor spectra of cs. */
  ghost predicate KeptByStages(cs: seq<Channel>, c: Channel)
  {
    && c.Mdct.tables as object !in cs && c.Mdct.tables !in SpectrumBuffers(cs)
    && c.Mdct.imdctPrevious as object !in cs && c.Mdct.imdctPrevious !in SpectrumBuffers(cs)
    && c.Pcm as object !in cs && c.Pcm !in SpectrumBuffers(cs)
  }

  /** The inverse transforms write neither the block, nor its channels, nor their spectra. */
  lemma StagesOutsideTransforms(block: Block)
    requires TransformsApart(block.Channels)
    ensures var cs := block.Channels;
      && block as object !in TransformBuffers(cs) && cs[0] as object !in TransformBuffers(cs)
      && cs[0].Spectra !in TransformBuffers(cs)
    ensures var cs := block.Channels;
      |cs| == 2 ==> cs[1] as object !in TransformBuffers(cs) && cs[1].Spectra !in TransformBuffers(cs)
  {
  }

  /** The spectrum stages' buffers are neither the block nor its channels. */
  lemma ChannelsOutsideSpectra(block: Block)
    requires ChannelsReady(block)
    ensures var cs := block.Channels;
      block as object !in SpectrumBuffers(cs) && cs[0] as object !in SpectrumBuffers(cs)
    ensures var cs := block.Channels;
      |cs| == 2 ==> cs[1] as object !in SpectrumBuffers(cs)
  {
  }

  /** The channel states of a decodable block have their buffers at their sizes. */
  ghost predicate SizedStates(block: Block)
    reads block, block.Channels
  {
    && Decodable(block)
    && forall j :: 0 <= j < |block.Channels| ==> ChannelSized(ChannelStates(block.Channels)[j])
  }

  /** The transforms of the block's channels can run: their shared tables reach the frame size. */
  ghost predicate TransformsReady(block: Block)
    reads block.Channels, set j | 0 <= j < |block.Channels| :: block.Channels[j].Mdct
    reads set j | 0 <= j < |block.Channels| :: block.Channels[j].Mdct.tables
  {
    forall j :: 0 <= j < |block.Channels| ==> block.Channels[j].Mdct.Valid()
  }

  /** The buffers the inverse transform of a channel writes. */
  function ChannelTransformBuffers(c: Channel): set<object>
  {
    {c.Pcm, c.Mdct.scratchMdct, c.Mdct.scratchDct, c.Mdct.imdctPrevious}
  }

  /** The buffers the inverse transforms of a block of one or two channels write. */
  function TransformBuffers(cs: seq<Channel>): set<object>
  {
    (if 1 <= |cs| then ChannelTransformBuffers(cs[0]) else {}) + (if 2 <= |cs| then ChannelTransformBuffers(cs[1]) else {})
  }

  /** A frame of 2^6 to 2^8 samples fits the 256-sample buffers. */
  lemma FrameFits(power: nat)
    requires 6 <= power <= 8
    ensures Pow2(power) <= BIN_SLOTS
  {
    Pow2Monotone(power, 8);
    assert Pow2(8) == 256;
  }

  /** What a channel's inverse transform is built from: its size in bits, its scale, its window and the shared angle tables. */
  datatype TransformParams = TransformParams(bits: nat, scale: real, window: seq<real>, sin: seq<seq<real>>, cos: seq<seq<real>>)

  /** The parameters make a transform of 2^bits samples: the window covers it and the angle tables reach it. */
  ghost predicate TransformFits(p: TransformParams)
  {
    1 <= p.bits <= 30 && |p.window| >= Pow2(p.bits) && M.AngleTables(p.bits + 1, p.sin, p.cos)
  }

  /** The parameters of transform m. */
  ghost function ParamsOf(m: M.Mdct): (p: TransformParams)
    reads m, m.tables, m.imdctWindow
    ensures m.Valid() ==> TransformFits(p) && Pow2(p.bits) == m.mdctSize
  {
    TransformParams(m.mdctBits, m.scale, m.imdctWindow[..], m.tables.sinTables, m.tables.cosTables)
  }

  /**
   * The inverse transform with parameters p ran over `spectrum`: `dct` holds the core transform
   * of its first 2^p.bits bins, `shuffled` is that buffer shuffled and scaled, the first 2^p.bits
   * PCM samples are its windowed overlap with `history`, `kept` is the history it keeps for the
   * next frame, and the rest of the PCM buffer is `rest`.
   */
  ghost predicate TransformedFrom(p: TransformParams, spectrum: seq<real>, dct: seq<real>, shuffled: seq<real>,
                                  pcm: seq<real>, kept: seq<real>, history: seq<real>, rest: seq<real>)
    requires TransformFits(p) && Pow2(p.bits) <= |spectrum| && Pow2(p.bits) <= |pcm| && |history| == Pow2(p.bits)
  {
    var size := Pow2(p.bits);
    && dct == M.DctCore(spectrum[..size], p.bits, p.sin, p.cos)
    && shuffled == M.Shuffled(dct, M.ShuffleTable(p.bits), p.scale)
    && pcm[..size] == OverlapOutputs(p.window[..size], shuffled, history, size / 2)
    && kept == OverlapHistories(p.window[..size], shuffled, size / 2)
    && pcm[size..] == rest
  }

  /**
   * The inverse transform of a channel ran: its buffers hold what `TransformedFrom` says of its
   * spectrum after `history`, and a silent spectrum after a silent history gives silence.
   */
  ghost predicate Transformed(c: Channel, history: seq<real>, rest: seq<real>)
    reads c.Pcm, c.Spectra, c.Mdct, c.Mdct.tables, c.Mdct.imdctWindow, c.Mdct.scratchMdct, c.Mdct.scratchDct, c.Mdct.imdctPrevious
    requires c.Mdct.Valid() && c.Mdct.mdctSize <= c.Pcm.Length && c.Mdct.mdctSize <= c.Spectra.Length
    requires |history| == c.Mdct.mdctSize
  {
    var m := c.Mdct;
    && TransformedFrom(ParamsOf(m), c.Spectra[..], m.scratchDct[..], m.scratchMdct[..], c.Pcm[..], m.imdctPrevious[..], history, rest)
    && ((forall k :: 0 <= k < m.mdctSize ==> history[k] == 0.0) && M.ZeroUpTo(c.Spectra, m.mdctSize) ==>
          M.ZeroUpTo(c.Pcm, m.mdctSize) && M.ZeroUpTo(m.imdctPrevious, m.mdctSize))
  }

  /** The channel's transform can run from its spectrum into its PCM buffer. */
  ghost predicate Transformable(c: Channel)
    reads c.Mdct, c.Mdct.tables
  {
    && c.Mdct.Valid() && c.Mdct.mdctSize <= BIN_SLOTS
    && c.Pcm.Length == BIN_SLOTS && c.Spectra.Length == BIN_SLOTS && c.Pcm != c.Spectra
    && Apart(c.Pcm, c.Mdct) && Apart(c.Spectra, c.Mdct)
  }

  /** No channel's window is a buffer of the block's channels. */
  ghost predicate WindowsApart(cs: seq<Channel>)
  {
    forall i, j :: 0 <= i < |cs| && 0 <= j < |cs| ==> cs[i].Mdct.imdctWindow !in cs[j].Repr
  }

  /** `imdctBlock`: each channel's spectrum through its own inverse transform into its PCM buffer. */
  method ImdctBlock(block: Block)
    requires TransformsApart(block.Channels)
    modifies TransformBuffers(block.Channels)
    ensures Transformable(block.Channels[0])
    ensures Transformed(block.Channels[0], old(block.Channels[0].Mdct.imdctPrevious[..]),
      old(block.Channels[0].Pcm[block.Channels[0].Mdct.mdctSize..]))
    ensures |block.Channels| == 2 ==>
      && Transformable(block.Channels[1])
      && Transformed(block.Channels[1], old(block.Channels[1].Mdct.imdctPrevious[..]),
           old(block.Channels[1].Pcm[block.Channels[1].Mdct.mdctSize..]))
  {
    var cs := block.Channels;
    ghost var h0, r0 := cs[0].Mdct.imdctPrevious[..], cs[0].Pcm[cs[0].Mdct.mdctSize..];
    ghost var h1, r1 := if |cs| == 2 then cs[1].Mdct.imdctPrevious[..] else [], if |cs| == 2 then cs[1].Pcm[cs[1].Mdct.mdctSize..] else [];
    for j := 0 to |cs|
      invariant TransformsApart(cs)
      invariant j == 0 ==> cs[0].Mdct.imdctPrevious[..] == h0 && cs[0].Pcm[cs[0].Mdct.mdctSize..] == r0
      invariant 1 <= j ==> Transformed(cs[0], h0, r0)
      invariant |cs| == 2 ==> |h1| == cs[1].Mdct.mdctSize
      invariant |cs| == 2 && 2 <= j ==> Transformed(cs[1], h1, r1)
      invariant |cs| == 2 && j <= 1 ==> cs[1].Mdct.imdctPrevious[..] == h1 && cs[1].Pcm[cs[1].Mdct.mdctSize..] == r1
    {
      if j == 0 {
        TransformFirst(cs, h0, r0);
      } else {
        TransformSecond(cs, h0, r0, h1, r1);
      }
    }
  }

  /**
   * The transforms of a block's one or two channels can run, and neither writes an array the
   * other reads or writes.
   */
  ghost predicate TransformsApart(cs: seq<Channel>)
    reads set j | 0 <= j < |cs| :: cs[j].Mdct, set j | 0 <= j < |cs| :: cs[j].Mdct.tables
  {
    && 1 <= |cs| <= 2 && Transformable(cs[0])
    && (|cs| == 2 ==> Transformable(cs[1]) && WrittenApart(cs[0], cs[1]) && WrittenApart(cs[1], cs[0]))
  }

  /** A ready block's channels can run their transforms apart. */
  lemma BlockTransformsApart(block: Block)
    requires ChannelsReady(block) && TransformsReady(block) && FrameLayout(block.Config) && WindowsApart(block.Channels)
    ensures TransformsApart(block.Channels)
  {
    FrameFits(block.Config.FrameSamplesPower);
    SeparateTransforms(block.Channels);
  }

  /** The first pass of `imdctBlock`'s loop: channel 0's transform, which leaves channel 1's arrays alone. */
  method TransformFirst(cs: seq<Channel>, ghost history: seq<real>, ghost rest: seq<real>)
    requires TransformsApart(cs)
    requires cs[0].Mdct.imdctPrevious[..] == history && cs[0].Pcm[cs[0].Mdct.mdctSize..] == rest
    modifies cs[0].Pcm, cs[0].Mdct.scratchMdct, cs[0].Mdct.scratchDct, cs[0].Mdct.imdctPrevious
    ensures TransformsApart(cs) && Transformed(cs[0], history, rest)
    ensures |cs| == 2 ==> unchanged(cs[1].Pcm, cs[1].Mdct.imdctPrevious)
  {
    var c := cs[0];
    var outcome := c.Mdct.RunImdct(c.Spectra, c.Pcm);
    assert outcome.Pass?;
  }

  /** The second pass of `imdctBlock`'s loop: channel 1's transform, which keeps channel 0's result. */
  method TransformSecond(cs: seq<Channel>, ghost h0: seq<real>, ghost r0: seq<real>, ghost h1: seq<real>, ghost r1: seq<real>)
    requires TransformsApart(cs) && |cs| == 2
    requires |h0| == cs[0].Mdct.mdctSize && Transformed(cs[0], h0, r0)
    requires cs[1].Mdct.imdctPrevious[..] == h1 && cs[1].Pcm[cs[1].Mdct.mdctSize..] == r1
    modifies cs[1].Pcm, cs[1].Mdct.scratchMdct, cs[1].Mdct.scratchDct, cs[1].Mdct.imdctPrevious
    ensures TransformsApart(cs) && Transformed(cs[0], h0, r0) && Transformed(cs[1], h1, r1)
  {
    var c := cs[1];
    var outcome := c.Mdct.RunImdct(c.Spectra, c.Pcm);
    assert outcome.Pass?;
  }

  /** The buffers one channel's transform writes are none of those the other channel's reads. */
  lemma SeparateTransforms(cs: seq<Channel>)
    requires |cs| <= 2 && forall j :: 0 <= j < |cs| ==> cs[j].Valid()
    requires |cs| == 2 ==> cs[0].Repr !! cs[1].Repr
    requires WindowsApart(cs)
    ensures |cs| == 2 ==>
      && WrittenApart(cs[0], cs[1]) && WrittenApart(cs[1], cs[0])
  {
  }

  /** The buffers a's transform writes are none of the arrays b's transform reads or writes. */
  predicate WrittenApart(a: Channel, b: Channel)
  {
    && Outside(a.Pcm, b) && Outside(a.Mdct.scratchMdct, b) && Outside(a.Mdct.scratchDct, b)
    && Outside(a.Mdct.imdctPrevious, b)
  }

  /** `buffer` is none of the arrays of channel c's transform. */
  predicate Outside(buffer: array<real>, c: Channel)
  {
    && buffer != c.Pcm && buffer != c.Spectra && buffer != c.Mdct.scratchMdct && buffer != c.Mdct.scratchDct
    && buffer != c.Mdct.imdctPrevious && buffer != c.Mdct.imdctWindow
  }

  // ---------------------------------------------------------------------------------------
  // The values a block decodes from and into

  /**
   * The values of a channel that decoding reads or writes: its fields, its spectrum and PCM
   * buffers, and its transform's history, scratch buffers and parameters.
   */
  datatype ChannelView = ChannelView(state: ChannelState, spectrum: seq<real>, pcm: seq<real>, history: seq<real>,
                                     dct: seq<real>, shuffled: seq<real>, transform: TransformParams)

  /** The values of a block: its fields and those of its channels, in order. */
  datatype BlockView = BlockView(state: BlockState, channels: seq<ChannelView>)

  /** The objects a channel's values live in. */
  ghost function ChannelParts(c: Channel): set<object>
  {
    {c, c.Pcm, c.Spectra, c.Mdct, c.Mdct.tables, c.Mdct.imdctWindow, c.Mdct.imdctPrevious, c.Mdct.scratchDct, c.Mdct.scratchMdct}
  }

  /** The objects a block's values live in. */
  ghost function BlockParts(b: Block): set<object>
  {
    {b as object} + set k, o | 0 <= k < |b.Channels| && o in ChannelParts(b.Channels[k]) :: o
  }

  /** The values of channel c. */
  ghost function ViewOf(c: Channel): ChannelView
    reads ChannelParts(c)
  {
    ChannelView(c.State(), c.Spectra[..], c.Pcm[..], c.Mdct.imdctPrevious[..],
      c.Mdct.scratchDct[..], c.Mdct.scratchMdct[..], ParamsOf(c.Mdct))
  }

  /** The values of block b. */
  ghost function BlockViewOf(b: Block): (v: BlockView)
    reads BlockParts(b)
    ensures v.state == b.State() && |v.channels| == |b.Channels|
    ensures forall k :: 0 <= k < |b.Channels| ==> v.channels[k] == ViewOf(b.Channels[k])
  {
    BlockView(b.State(), seq(|b.Channels|, k requires 0 <= k < |b.Channels| reads BlockParts(b) => ViewOf(b.Channels[k])))
  }

  /** The channel states a block view holds. */
  function ViewStates(cs: seq<ChannelView>): (r: seq<ChannelState>)
    ensures |r| == |cs| && forall k :: 0 <= k < |cs| ==> r[k] == cs[k].state
  {
    seq(|cs|, k requires 0 <= k < |cs| => cs[k].state)
  }

  /**
   * Channel k of a block with fields b and channel states `read` decoded from `before` into
   * `after`: band extension over the spectrum the first three stages give, then the inverse
   * transform of the result after the history and PCM tail `before` held.
   */
  ghost predicate ChannelDecoded(b: BlockState, blockType: int, read: seq<ChannelState>, k: nat,
                                 before: ChannelView, after: ChannelView, t: CodecTables, exp2: real -> real)
    requires |read| == BlockTypeToChannelCount(blockType) && k < |read|
    requires (forall j :: 0 <= j < |read| ==> ChannelSized(read[j])) && |b.JointStereoSigns| == UNIT_SLOTS
  {
    var p := after.transform;
    && B.ExtensionStage(b, read[k], PreSpectrum(b, blockType, read, k, t), after.state, after.spectrum, t, exp2)
    && TransformFits(p) && Pow2(p.bits) <= |after.spectrum| && Pow2(p.bits) <= |after.pcm|
    && |before.history| == Pow2(p.bits) && Pow2(p.bits) <= |before.pcm|
    && TransformedFrom(p, after.spectrum, after.dct, after.shuffled, after.pcm, after.history,
         before.history, before.pcm[Pow2(p.bits)..])
  }

  /**
   * A block of type `blockType` whose channels were read as `read` decoded from `before` into
   * `after`: its fields are `after.state`, and each channel decoded as `ChannelDecoded` says.
   */
  ghost predicate BlockDecoded(blockType: int, before: BlockView, read: seq<ChannelState>, after: BlockView,
                               t: CodecTables, exp2: real -> real)
  {
    && |read| == BlockTypeToChannelCount(blockType) && |before.channels| == |read| && |after.channels| == |read|
    && (forall k :: 0 <= k < |read| ==> ChannelSized(read[k])) && |after.state.JointStereoSigns| == UNIT_SLOTS
    && forall k :: 0 <= k < |read| ==>
         ChannelDecoded(after.state, blockType, read, k, before.channels[k], after.channels[k], t, exp2)
  }

  // ---------------------------------------------------------------------------------------
  // One frame

  /** The transforms of the frame's channels and their tables. */
  ghost function TransformObjects(frame: Frame): set<object>
  {
    (set i, k | 0 <= i < |frame.Blocks| && 0 <= k < |frame.Blocks[i].Channels| :: frame.Blocks[i].Channels[k].Mdct as object)
      + (set i, k | 0 <= i < |frame.Blocks| && 0 <= k < |frame.Blocks[i].Channels| :: frame.Blocks[i].Channels[k].Mdct.tables as object)
  }

  /** The transforms of every block of the frame can run apart. */
  ghost predicate BlocksTransformable(frame: Frame)
    reads TransformObjects(frame)
  {
    forall i :: 0 <= i < |frame.Blocks| ==> TransformsApart(frame.Blocks[i].Channels)
  }

  /**
   * `DecodeBlock` as the frame's loop sees it: the block stays decodable with its transforms
   * apart, its own fields stay as they were, the stages fail exactly when band extension throws,
   * and when they pass the block decoded from its values before as `BlockDecoded` says.
   */
  method BlockStep(block: Block, t: CodecTables, exp2: real -> real) returns (r: Outcome<DecodeError>)
    requires Decodable(block) && B.BexLayout(t) && TransformsApart(block.Channels)
    modifies block.Channels, SpectrumBuffers(block.Channels), TransformBuffers(block.Channels)
    ensures Decodable(block) && TransformsApart(block.Channels) && block.State() == old(block.State())
    ensures r.Fail? <==> B.ExtensionFails(block.State())
    ensures r.Pass? ==>
      BlockDecoded(block.BlockType, old(BlockViewOf(block)), old(ChannelStates(block.Channels)), BlockViewOf(block), t, exp2)
  {
    hide *;
    DecodableParts(block);
    ReadyParts(block);
    ChannelsOutsideSpectra(block);
    StagesOutsideTransforms(block);
    ghost var before, read := BlockViewOf(block), ChannelStates(block.Channels);
    ReadSized(block);
    ViewedBefore(block);
    r := DecodeBlock(block, t, exp2);
    if r.Pass? {
      ghost var after := BlockViewOf(block);
      forall k | 0 <= k < |read|
        ensures ChannelDecoded(after.state, block.BlockType, read, k, before.channels[k], after.channels[k], t, exp2)
      {
        ChannelStep(block, k, before.channels[k], read, t, exp2);
      }
      BlockDecodedOf(block.BlockType, before, read, after, t, exp2);
    }
  }

  /** The channel states of a decodable block have their sizes, and its fields their stereo signs. */
  lemma ReadSized(block: Block)
    requires Decodable(block)
    ensures var read := ChannelStates(block.Channels);
      && |read| == BlockTypeToChannelCount(block.BlockType) && |block.State().JointStereoSigns| == UNIT_SLOTS
      && forall k :: 0 <= k < |read| ==> ChannelSized(read[k])
  {
  }

  /** The history and PCM buffer a block's view holds are its channels' arrays, the history as long as the transform. */
  lemma ViewedBefore(block: Block)
    requires TransformsApart(block.Channels)
    ensures forall k :: 0 <= k < |block.Channels| ==>
      && BlockViewOf(block).channels[k].history == block.Channels[k].Mdct.imdctPrevious[..]
      && BlockViewOf(block).channels[k].pcm == block.Channels[k].Pcm[..]
      && |BlockViewOf(block).channels[k].history| == block.Channels[k].Mdct.mdctSize <= |BlockViewOf(block).channels[k].pcm|
  {
  }

  /** Channel k after the stages of its block, given what `DecodeBlock` ensures of it, decoded as `ChannelDecoded` says. */
  lemma ChannelStep(block: Block, k: nat, before: ChannelView, read: seq<ChannelState>, t: CodecTables, exp2: real -> real)
    requires Decodable(block) && k < |block.Channels|
    requires |read| == BlockTypeToChannelCount(block.BlockType) && |block.State().JointStereoSigns| == UNIT_SLOTS
    requires forall j :: 0 <= j < |read| ==> ChannelSized(read[j])
    requires var c := block.Channels[k];
      && B.ExtensionStage(block.State(), read[k], PreSpectrum(block.State(), block.BlockType, read, k, t),
           c.State(), c.Spectra[..], t, exp2)
      && Transformable(c) && |before.history| == c.Mdct.mdctSize && c.Mdct.mdctSize <= |before.pcm|
      && Transformed(c, before.history, before.pcm[c.Mdct.mdctSize..])
    ensures ChannelDecoded(block.State(), block.BlockType, read, k, before, BlockViewOf(block).channels[k], t, exp2)
  {
  }

  /** Channels each decoded as `ChannelDecoded` says make the block decoded. */
  lemma BlockDecodedOf(blockType: int, before: BlockView, read: seq<ChannelState>, after: BlockView,
                       t: CodecTables, exp2: real -> real)
    requires |read| == BlockTypeToChannelCount(blockType) && |before.channels| == |read| && |after.channels| == |read|
    requires (forall k :: 0 <= k < |read| ==> ChannelSized(read[k])) && |after.state.JointStereoSigns| == UNIT_SLOTS
    requires forall k :: 0 <= k < |read| ==>
      ChannelDecoded(after.state, blockType, read, k, before.channels[k], after.channels[k], t, exp2)
    ensures BlockDecoded(blockType, before, read, after, t, exp2)
  {
  }

  /**
   * The stages of block i of the frame: they fail exactly when its band extension throws, leave
   * every block decodable with its transforms apart, and change no block's own fields. When they
   * pass, block i decoded from its values before as `BlockDecoded` says, and every other block
   * holds the values it held.
   */
  method DecodeFrameBlock(frame: Frame, i: nat, t: CodecTables, exp2: real -> real) returns (r: Outcome<DecodeError>)
    requires FrameShape(frame) && BlocksDecodable(frame) && BlocksTransformable(frame) && WindowsOutside(frame) && B.BexLayout(t)
    requires i < |frame.Blocks|
    modifies frame.Blocks[i].Channels, SpectrumBuffers(frame.Blocks[i].Channels), TransformBuffers(frame.Blocks[i].Channels)
    ensures BlocksDecodable(frame) && BlocksTransformable(frame)
    ensures BlockStates(frame) == old(BlockStates(frame))
    ensures r.Fail? <==> B.ExtensionFails(frame.Blocks[i].State())
    ensures r.Pass? ==>
      BlockDecoded(frame.Blocks[i].BlockType, old(BlockViewOf(frame.Blocks[i])), old(ChannelStates(frame.Blocks[i].Channels)),
        BlockViewOf(frame.Blocks[i]), t, exp2)
    ensures forall j :: 0 <= j < |frame.Blocks| && j != i ==> BlockViewOf(frame.Blocks[j]) == old(BlockViewOf(frame.Blocks[j]))
  {
    hide BlockDecoded, BlockViewOf, ViewOf, BlockParts, ChannelStates;
    assert Decodable(frame.Blocks[i]) && TransformsApart(frame.Blocks[i].Channels);
    forall j | 0 <= j < |frame.Blocks| && j != i
      ensures OutsideBlock(frame.Blocks[j], frame.Blocks[i].Channels)
      ensures var cs := frame.Blocks[i].Channels;
        forall o :: o in BlockParts(frame.Blocks[j]) ==> allocated(o) && o !in cs && o !in SpectrumBuffers(cs) && o !in TransformBuffers(cs)
    {
      OtherBlockOutside(frame, i, j);
      BlockPartsApart(frame, i, j);
    }
    r := BlockStep(frame.Blocks[i], t, exp2);
    forall j | 0 <= j < |frame.Blocks| && j != i
      ensures Decodable(frame.Blocks[j]) && TransformsApart(frame.Blocks[j].Channels)
      ensures frame.Blocks[j].State() == old(frame.Blocks[j].State())
      ensures BlockViewOf(frame.Blocks[j]) == old(BlockViewOf(frame.Blocks[j]))
    {
      assert OutsideBlock(frame.Blocks[j], frame.Blocks[i].Channels);
      BlockKept(frame.Blocks[j]);
      ViewKept(frame.Blocks[j]);
    }
    assert forall j :: 0 <= j < |frame.Blocks| ==> BlockStates(frame)[j] == old(BlockStates(frame))[j];
  }

  /** A block whose own fields, channels and shared tables no step changed stays ready. */
  twostate lemma BlockKept(b: Block)
    requires old(Decodable(b) && TransformsApart(b.Channels))
    requires unchanged(b) && forall k :: 0 <= k < |b.Channels| ==> unchanged(b.Channels[k], b.Channels[k].Mdct.tables)
    ensures Decodable(b) && TransformsApart(b.Channels) && b.State() == old(b.State())
  {
  }

  /** A block none of whose parts a step changed holds the values it held. */
  twostate lemma ViewKept(b: Block)
    requires forall o :: o in BlockParts(b) ==> unchanged(o)
    ensures BlockViewOf(b) == old(BlockViewOf(b))
  {
  }

  /** No channel's window is a buffer that the stages of any block of the frame write. */
  ghost predicate WindowsOutside(frame: Frame)
  {
    forall j, k :: 0 <= j < |frame.Blocks| && 0 <= k < |frame.Blocks[j].Channels| ==>
      frame.Blocks[j].Channels[k].Mdct.imdctWindow !in FrameBuffers(frame)
  }

  /** The window of channel k of block j is none of the buffers block i's stages write. */
  lemma WindowOutsideBlock(frame: Frame, i: nat, j: nat, k: nat)
    requires WindowsOutside(frame) && i < |frame.Blocks| && j < |frame.Blocks| && k < |frame.Blocks[j].Channels|
    ensures frame.Blocks[j].Channels[k].Mdct.imdctWindow !in SpectrumBuffers(frame.Blocks[i].Channels)
    ensures frame.Blocks[j].Channels[k].Mdct.imdctWindow !in TransformBuffers(frame.Blocks[i].Channels)
  {
    BlockBuffersInFrame(frame, i);
  }

  /** The buffers block i's stages write are buffers of the frame. */
  lemma BlockBuffersInFrame(frame: Frame, i: nat)
    requires i < |frame.Blocks|
    ensures SpectrumBuffers(frame.Blocks[i].Channels) <= FrameBuffers(frame)
    ensures TransformBuffers(frame.Blocks[i].Channels) <= FrameBuffers(frame)
  {
    var cs := frame.Blocks[i].Channels;
    forall k | 0 <= k < |cs| && k < 2
      ensures {cs[k].Spectra as object} + ChannelTransformBuffers(cs[k]) <= FrameBuffers(frame)
    {
      forall a | a in {cs[k].Spectra as object} + ChannelTransformBuffers(cs[k])
        ensures a in FrameBuffers(frame)
      {
      }
    }
  }

  /** Nothing block j's values live in is written by the stages of another block i. */
  lemma BlockPartsApart(frame: Frame, i: nat, j: nat)
    requires FrameShape(frame) && BlocksDecodable(frame) && WindowsOutside(frame)
    requires i < |frame.Blocks| && j < |frame.Blocks| && i != j
    ensures var cs := frame.Blocks[i].Channels;
      forall o :: o in BlockParts(frame.Blocks[j]) ==> allocated(o) && o !in cs && o !in SpectrumBuffers(cs) && o !in TransformBuffers(cs)
  {
    hide WindowsOutside, FrameBuffers;
    var bi, bj := frame.Blocks[i], frame.Blocks[j];
    var cs := bi.Channels;
    assert bi.Repr !! bj.Repr by {
      if i < j {
        assert frame.Blocks[i].Repr !! frame.Blocks[j].Repr;
      } else {
        assert frame.Blocks[j].Repr !! frame.Blocks[i].Repr;
      }
    }
    BlockOwns(frame, i);
    BlockOwns(frame, j);
    forall k | 0 <= k < |bj.Channels|
      ensures forall o :: o in ChannelParts(bj.Channels[k]) ==> o !in cs && o !in SpectrumBuffers(cs) && o !in TransformBuffers(cs)
    {
      WindowOutsideBlock(frame, i, j, k);
      ChannelPartsApart(bj.Channels[k], cs, bi.Repr);
    }
    forall o | o in BlockParts(bj)
      ensures o !in cs && o !in SpectrumBuffers(cs) && o !in TransformBuffers(cs)
    {
      if o == bj {
        assert bj in bj.Repr && forall m :: 0 <= m < |cs| ==> cs[m] in bi.Repr;
      } else {
        var k :| 0 <= k < |bj.Channels| && o in ChannelParts(bj.Channels[k]);
      }
    }
    PartsAllocated(bj);
  }

  /** The objects a block's values live in are allocated. */
  lemma PartsAllocated(b: Block)
    ensures forall o :: o in BlockParts(b) ==> allocated(o)
  {
    forall o | o in BlockParts(b)
      ensures allocated(o)
    {
      if o != b {
        var k :| 0 <= k < |b.Channels| && o in ChannelParts(b.Channels[k]);
      }
    }
  }

  /** A block of the frame owns its channels and the buffers their stages write. */
  lemma BlockOwns(frame: Frame, i: nat)
    requires FrameShape(frame) && BlocksDecodable(frame) && i < |frame.Blocks|
    ensures var b := frame.Blocks[i];
      && b in b.Repr && b as object !in b.Channels
      && (forall m :: 0 <= m < |b.Channels| ==> b.Channels[m].Valid() && b.Channels[m].Repr <= b.Repr && b.Channels[m] in b.Repr)
      && SpectrumBuffers(b.Channels) <= b.Repr && TransformBuffers(b.Channels) <= b.Repr
  {
    var b := frame.Blocks[i];
    assert BlockShape(frame, b, i) && Decodable(b);
    assert forall m :: 0 <= m < |b.Channels| ==> ChannelShape(b, b.Channels[m], m) && b.Channels[m].Valid();
  }

  /** Channel c owns what it writes apart from `repr`, which holds the channels cs and their buffers; its window lies outside their buffers. */
  lemma ChannelPartsApart(c: Channel, cs: seq<Channel>, repr: set<object>)
    requires c.Valid() && c.Repr !! repr
    requires (forall m :: 0 <= m < |cs| ==> cs[m] in repr) && SpectrumBuffers(cs) <= repr && TransformBuffers(cs) <= repr
    requires c.Mdct.imdctWindow !in SpectrumBuffers(cs) && c.Mdct.imdctWindow !in TransformBuffers(cs)
    ensures forall o :: o in ChannelParts(c) ==> o !in cs && o !in SpectrumBuffers(cs) && o !in TransformBuffers(cs)
  {
  }

  /** Block j and its channels and transforms are none of what block i's stages write. */
  lemma OtherBlockOutside(frame: Frame, i: nat, j: nat)
    requires FrameShape(frame) && BlocksDecodable(frame)
    requires i < |frame.Blocks| && j < |frame.Blocks| && i != j
    ensures OutsideBlock(frame.Blocks[j], frame.Blocks[i].Channels)
  {
    OtherBlockUnchanged(frame, i, j);
  }

  /** Block b, its channels and their transforms and tables are none of what the stages of channels cs write. */
  ghost predicate OutsideBlock(b: Block, cs: seq<Channel>)
  {
    && b as object !in cs && b !in SpectrumBuffers(cs) && b !in TransformBuffers(cs)
    && forall k :: 0 <= k < |b.Channels| ==>
         && b.Channels[k] !in cs && b.Channels[k] !in SpectrumBuffers(cs) && b.Channels[k] !in TransformBuffers(cs)
         && b.Channels[k].Mdct as object !in cs && b.Channels[k].Mdct !in SpectrumBuffers(cs)
         && b.Channels[k].Mdct !in TransformBuffers(cs)
         && b.Channels[k].Mdct.tables as object !in cs && b.Channels[k].Mdct.tables !in SpectrumBuffers(cs)
         && b.Channels[k].Mdct.tables !in TransformBuffers(cs)
  }

  /** The sample buffers of every channel of the frame, which the stages write. */
  ghost function FrameBuffers(frame: Frame): set<object>
  {
    set i, k, a | 0 <= i < |frame.Blocks| && 0 <= k < |frame.Blocks[i].Channels|
      && a in {frame.Blocks[i].Channels[k].Spectra} + ChannelTransformBuffers(frame.Blocks[i].Channels[k]) :: a as object
  }

  /** A block of the frame has at most two channels. */
  lemma ChannelsInFrame(frame: Frame, i: nat)
    requires FrameShape(frame) && BlocksDecodable(frame) && i < |frame.Blocks|
    ensures |frame.Blocks[i].Channels| <= 2
  {
    assert Decodable(frame.Blocks[i]);
  }

  /** What the stages of block i write lies within the frame's objects and buffers. */
  lemma BlockStagesInFrame(frame: Frame, i: nat)
    requires i < |frame.Blocks| && |frame.Blocks[i].Channels| <= 2
    ensures var cs := frame.Blocks[i].Channels;
      (set k | 0 <= k < |cs| :: cs[k] as object) + SpectrumBuffers(cs) + TransformBuffers(cs)
        <= FrameObjects(frame) + FrameBuffers(frame)
  {
    var cs := frame.Blocks[i].Channels;
    forall k | 0 <= k < |cs|
      ensures cs[k] in FrameObjects(frame)
      ensures cs[k].Spectra in FrameBuffers(frame) && ChannelTransformBuffers(cs[k]) <= FrameBuffers(frame)
    {
      assert cs[k].Spectra in {cs[k].Spectra} + ChannelTransformBuffers(cs[k]);
      forall a | a in ChannelTransformBuffers(cs[k]) ensures a in FrameBuffers(frame) {
        assert a in {cs[k].Spectra} + ChannelTransformBuffers(cs[k]);
      }
    }
  }

  /** The kind of every block of the frame, in order. */
  function BlockTypes(frame: Frame): (r: seq<int>)
    ensures |r| == |frame.Blocks| && forall i :: 0 <= i < |frame.Blocks| ==> r[i] == frame.Blocks[i].BlockType
  {
    seq(|frame.Blocks|, i requires 0 <= i < |frame.Blocks| => frame.Blocks[i].BlockType)
  }

  /** The values of every block of the frame, in order. */
  ghost function FrameView(frame: Frame): (v: seq<BlockView>)
    reads set i, o | 0 <= i < |frame.Blocks| && o in BlockParts(frame.Blocks[i]) :: o
    ensures |v| == |frame.Blocks| && forall i :: 0 <= i < |frame.Blocks| ==> v[i] == BlockViewOf(frame.Blocks[i])
  {
    seq(|frame.Blocks|, i requires 0 <= i < |frame.Blocks| reads if 0 <= i < |frame.Blocks| then BlockParts(frame.Blocks[i]) else {} => BlockViewOf(frame.Blocks[i]))
  }

  /** Block values v and w hold the same buffers and transforms; only the fields may differ. */
  ghost predicate SameBuffers(v: BlockView, w: BlockView)
  {
    |v.channels| == |w.channels| && forall k :: 0 <= k < |v.channels| ==> v.channels[k].(state := w.channels[k].state) == w.channels[k]
  }

  /**
   * What one frame went through: the outcome of unpacking its blocks, where each block read
   * left the reader, where each block's body stopped, and the values each block read held.
   */
  datatype FrameTrace = FrameTrace(read: Outcome<DecodeError>, stops: seq<nat>, bodyEnds: seq<nat>, unpacked: seq<BlockView>)

  /** Blocks of the kinds `types` holding `before` can be read with the tables t. */
  ghost predicate FrameReady(types: seq<int>, before: seq<BlockView>, config: Atrac9Config, t: CodecTables)
  {
    && ScaleFactorTables(t) && SpectrumTables(t) && BexTables(t) && |types| == |before|
    && forall i :: 0 <= i < |before| ==> BodyReady(before[i].state, ViewStates(before[i].channels), types[i], config)
  }

  /**
   * `unpackFrame` on values: the blocks, of the kinds `types` and holding `before`, read from
   * `bits` at `start` as `tr` records. Block i is read as `BlockRead` says from where block
   * i - 1 left the reader, and keeps its buffers; reading stops at the first block that throws
   * and otherwise covers every block.
   */
  ghost predicate FrameRead(types: seq<int>, before: seq<BlockView>, bits: seq<bool>, start: nat, tr: FrameTrace,
                            frameIndex: int, config: Atrac9Config, t: CodecTables)
    requires FrameReady(types, before, config, t)
  {
    && |tr.stops| == |tr.bodyEnds| == |tr.unpacked| <= |before|
    && (tr.read.Pass? ==> |tr.stops| == |before|)
    && (tr.read.Fail? ==> 0 < |tr.stops|)
    && forall i :: 0 <= i < |tr.stops| ==>
         && SameBuffers(before[i], tr.unpacked[i])
         && BlockRead(before[i].state, ViewStates(before[i].channels), tr.unpacked[i].state,
              ViewStates(tr.unpacked[i].channels), bits, StartOf(start, tr.stops, i), tr.stops[i], tr.bodyEnds[i],
              if i + 1 == |tr.stops| then tr.read else Pass, frameIndex, types[i], config, t)
  }

  /**
   * `decodeFrame` on values: the blocks, holding `before`, read as `FrameRead` says and then
   * decoded into `after`, with outcome r. When reading throws, r is that throw, the blocks read
   * hold what they read and the others what they held. Otherwise r passes exactly when no
   * block's band extension throws, the blocks keep the fields they read, and when r passes
   * every block decoded from the values it read as `BlockDecoded` says.
   */
  ghost predicate FrameDecoded(types: seq<int>, before: seq<BlockView>, bits: seq<bool>, start: nat, tr: FrameTrace,
                               r: Outcome<DecodeError>, after: seq<BlockView>, frameIndex: int, config: Atrac9Config,
                               t: CodecTables, exp2: real -> real)
    requires FrameReady(types, before, config, t)
  {
    && FrameRead(types, before, bits, start, tr, frameIndex, config, t)
    && |after| == |before|
    && (tr.read.Fail? ==> r == tr.read && after == tr.unpacked + before[|tr.stops|..])
    && (tr.read.Pass? ==>
          && (forall i :: 0 <= i < |before| ==> after[i].state == tr.unpacked[i].state)
          && (r.Pass? <==> forall i :: 0 <= i < |before| ==> !B.ExtensionFails(tr.unpacked[i].state)))
    && (tr.read.Pass? && r.Pass? ==> forall i :: 0 <= i < |before| ==>
          BlockDecoded(types[i], tr.unpacked[i], ViewStates(tr.unpacked[i].channels), after[i], t, exp2))
  }

  /**
   * `decodeFrame`: every block of the frame unpacked first, then each block in order through
   * dequantization, intensity stereo, scaling, band extension and its transforms, as
   * `FrameDecoded` says with `tr` recording the unpacking. When it passes every block's header
   * agreed with the frame's place in the superframe and the reader sits on a byte boundary.
   * Either way every block stays ready for the next frame.
   */
  method DecodeFrame(reader: BitReader, frame: Frame, t: CodecTables, exp2: real -> real)
    returns (r: Outcome<DecodeError>, ghost tr: FrameTrace)
    requires reader.Valid() && ScaleFactorTables(t) && SpectrumTables(t) && B.BexLayout(t)
    requires FrameDecodable(frame) && BlocksTransformable(frame) && WindowsOutside(frame)
    modifies reader, FrameObjects(frame), FrameBuffers(frame)
    ensures reader.Valid() && unchanged(reader`buffer, reader`bits)
    ensures FrameDecodable(frame) && BlocksTransformable(frame)
    ensures old(FrameReady(BlockTypes(frame), FrameView(frame), frame.Config, t))
    ensures FrameDecoded(BlockTypes(frame), old(FrameView(frame)), reader.bits, old(reader.position), tr, r,
      FrameView(frame), frame.FrameIndex, frame.Config, t, exp2)
    ensures reader.position == StartOf(old(reader.position), tr.stops, |tr.stops|)
    ensures r.Pass? && |frame.Blocks| > 0 ==> reader.position % 8 == 0
    ensures r.Pass? ==> forall i :: 0 <= i < |frame.Blocks| ==>
      frame.Blocks[i].State().FirstInSuperframe == (frame.FrameIndex == 0) && !B.ExtensionFails(frame.Blocks[i].State())
  {
    hide *;
    LayoutTables(t);
    FrameParts(frame);
    OutsideFrame(reader, frame);
    ghost var before := FrameView(frame);
    ghost var start := reader.position;
    r, tr := ReadBlocks(reader, frame, t);
    if r.Fail? {
      FrameDecodedOf(BlockTypes(frame), before, reader.bits, start, tr, r, FrameView(frame), frame.FrameIndex, frame.Config, t, exp2);
      return;
    }
    ghost var states := BlockStates(frame);
    assert forall i :: 0 <= i < |frame.Blocks| ==> states[i] == tr.unpacked[i].state;
    r := DecodeBlocks(frame, t, exp2);
    ghost var after := FrameView(frame);
    assert forall i :: 0 <= i < |frame.Blocks| ==> after[i].state == BlockStates(frame)[i];
    FrameDecodedOf(BlockTypes(frame), before, reader.bits, start, tr, r, after, frame.FrameIndex, frame.Config, t, exp2);
  }

  /**
   * A frame that decoded read every block, each with a header that agreed with the frame's
   * place in the superframe and a band extension that did not throw, kept the fields each block
   * read, and left the reader on a byte boundary.
   */
  lemma {:induction false} FrameDecodedPasses(types: seq<int>, before: seq<BlockView>, bits: seq<bool>, start: nat,
                                              tr: FrameTrace, r: Outcome<DecodeError>, after: seq<BlockView>,
                                              frameIndex: int, config: Atrac9Config, t: CodecTables, exp2: real -> real)
    requires FrameReady(types, before, config, t)
    requires FrameDecoded(types, before, bits, start, tr, r, after, frameIndex, config, t, exp2) && r.Pass?
    ensures tr.read.Pass? && |tr.stops| == |tr.unpacked| == |before| == |after|
    ensures forall i :: 0 <= i < |before| ==>
      && tr.unpacked[i].state.FirstInSuperframe == (frameIndex == 0) && !B.ExtensionFails(tr.unpacked[i].state)
      && after[i].state == tr.unpacked[i].state
    ensures 0 < |before| ==> tr.stops[|before| - 1] % 8 == 0
  {
    forall i | 0 <= i < |before|
      ensures tr.unpacked[i].state.FirstInSuperframe == (frameIndex == 0)
      ensures i + 1 == |before| ==> tr.stops[i] % 8 == 0
    {
      BlockReadPasses(before[i].state, ViewStates(before[i].channels), tr.unpacked[i].state,
        ViewStates(tr.unpacked[i].channels), bits, StartOf(start, tr.stops, i), tr.stops[i], tr.bodyEnds[i],
        Pass, frameIndex, types[i], config, t);
    }
  }

  /** The band-extension tables laid out for decoding hold its group rows. */
  lemma LayoutTables(t: CodecTables)
    requires B.BexLayout(t)
    ensures BexTables(t)
  {
  }

  /** What unpacking and then each block's stages did, as values, makes up `FrameDecoded`. */
  lemma FrameDecodedOf(types: seq<int>, before: seq<BlockView>, bits: seq<bool>, start: nat, tr: FrameTrace,
                       r: Outcome<DecodeError>, after: seq<BlockView>, frameIndex: int, config: Atrac9Config,
                       t: CodecTables, exp2: real -> real)
    requires FrameReady(types, before, config, t) && FrameRead(types, before, bits, start, tr, frameIndex, config, t)
    requires |after| == |before|
    requires tr.read.Fail? ==> r == tr.read && after == tr.unpacked + before[|tr.stops|..]
    requires tr.read.Pass? ==>
      && (forall i :: 0 <= i < |before| ==> after[i].state == tr.unpacked[i].state)
      && (r.Pass? <==> forall i :: 0 <= i < |before| ==> !B.ExtensionFails(tr.unpacked[i].state))
    requires tr.read.Pass? && r.Pass? ==> forall i :: 0 <= i < |before| ==>
      BlockDecoded(types[i], tr.unpacked[i], ViewStates(tr.unpacked[i].channels), after[i], t, exp2)
    ensures FrameDecoded(types, before, bits, start, tr, r, after, frameIndex, config, t, exp2)
  {
  }

  /**
   * The unpacking half of `decodeFrame`: `unpackFrame` on the frame's blocks, read as
   * `FrameRead` says, leaving the blocks past a throw as they were and every block ready.
   * When it passes every block's header agreed with the frame's place in the superframe and
   * the reader sits on a byte boundary.
   */
  method ReadBlocks(reader: BitReader, frame: Frame, t: CodecTables)
    returns (read: Outcome<DecodeError>, ghost tr: FrameTrace)
    requires reader.Valid() && ScaleFactorTables(t) && SpectrumTables(t) && BexTables(t)
    requires FrameDecodable(frame) && BlocksTransformable(frame)
    modifies reader, FrameObjects(frame)
    ensures reader.Valid() && unchanged(reader`buffer, reader`bits)
    ensures FrameDecodable(frame) && BlocksTransformable(frame)
    ensures old(FrameReady(BlockTypes(frame), FrameView(frame), frame.Config, t))
    ensures FrameRead(BlockTypes(frame), old(FrameView(frame)), reader.bits, old(reader.position), tr,
      frame.FrameIndex, frame.Config, t)
    ensures tr.read == read && FrameView(frame) == tr.unpacked + old(FrameView(frame))[|tr.stops|..]
    ensures |tr.unpacked| == |tr.stops| <= |frame.Blocks| && (read.Pass? ==> |tr.stops| == |frame.Blocks|)
    ensures reader.position == StartOf(old(reader.position), tr.stops, |tr.stops|)
    ensures read.Pass? && |frame.Blocks| > 0 ==> reader.position % 8 == 0
    ensures read.Pass? ==> forall i :: 0 <= i < |frame.Blocks| ==> frame.Blocks[i].State().FirstInSuperframe == (frame.FrameIndex == 0)
  {
    hide *;
    FrameParts(frame);
    TablesOutsideFrame(frame);
    OutsideFrame(reader, frame);
    PartsOutsideObjects(reader, frame);
    FrameReadyOf(frame, t);
    ghost var before := FrameView(frame);
    ghost var pos := reader.position;
    StatesViewedAll(frame);
    ghost var stops, bodyEnds;
    read, stops, bodyEnds := UnpackFrame(reader, frame, t);
    TablesKept(frame);
    forall i | 0 <= i < |frame.Blocks| ensures SameBuffers(before[i], BlockViewOf(frame.Blocks[i])) {
      BuffersKept(frame.Blocks[i]);
    }
    StatesViewedAll(frame);
    ghost var unpacked := FrameView(frame);
    tr := FrameTrace(read, stops, bodyEnds, unpacked[..|stops|]);
    forall i | |stops| <= i < |frame.Blocks| ensures unpacked[i] == before[i] {
      SameStatesSameView(before[i], unpacked[i]);
    }
    assert unpacked == tr.unpacked + before[|stops|..];
    FrameReadOf(BlockTypes(frame), before, reader.bits, pos, tr, frame.FrameIndex, frame.Config, t);
    if read.Pass? {
      forall i | 0 <= i < |frame.Blocks|
        ensures frame.Blocks[i].State().FirstInSuperframe == (frame.FrameIndex == 0)
        ensures i + 1 == |stops| ==> stops[i] % 8 == 0
      {
        BlockReadPasses(old(frame.Blocks[i].State()), old(ChannelStates(frame.Blocks[i].Channels)),
          frame.Blocks[i].State(), ChannelStates(frame.Blocks[i].Channels), reader.bits,
          StartOf(pos, stops, i), stops[i], bodyEnds[i], Pass,
          frame.FrameIndex, frame.Blocks[i].BlockType, frame.Config, t);
      }
      if 0 < |stops| {
        StartOfEnd(pos, stops);
      }
    }
  }

  /** The reader stands after the last block read where that block left it. */
  lemma StartOfEnd(pos: nat, stops: seq<nat>)
    requires 0 < |stops|
    ensures StartOf(pos, stops, |stops|) == stops[|stops| - 1]
  {
  }

  /** The fields of every block's channels are the states its values hold. */
  lemma StatesViewedAll(frame: Frame)
    ensures forall i :: 0 <= i < |frame.Blocks| ==>
      ChannelStates(frame.Blocks[i].Channels) == ViewStates(BlockViewOf(frame.Blocks[i]).channels)
  {
    forall i | 0 <= i < |frame.Blocks|
      ensures ChannelStates(frame.Blocks[i].Channels) == ViewStates(BlockViewOf(frame.Blocks[i]).channels)
    {
      StatesViewed(frame.Blocks[i]);
    }
  }

  /** What each block read, as values, makes up `FrameRead`. */
  lemma FrameReadOf(types: seq<int>, before: seq<BlockView>, bits: seq<bool>, start: nat, tr: FrameTrace,
                    frameIndex: int, config: Atrac9Config, t: CodecTables)
    requires FrameReady(types, before, config, t)
    requires |tr.stops| == |tr.bodyEnds| == |tr.unpacked| <= |before|
    requires (tr.read.Pass? ==> |tr.stops| == |before|) && (tr.read.Fail? ==> 0 < |tr.stops|)
    requires forall i :: 0 <= i < |tr.stops| ==> SameBuffers(before[i], tr.unpacked[i])
    requires forall i :: 0 <= i < |tr.stops| ==>
      BlockRead(before[i].state, ViewStates(before[i].channels), tr.unpacked[i].state,
        ViewStates(tr.unpacked[i].channels), bits, StartOf(start, tr.stops, i), tr.stops[i], tr.bodyEnds[i],
        if i + 1 == |tr.stops| then tr.read else Pass, frameIndex, types[i], config, t)
    ensures FrameRead(types, before, bits, start, tr, frameIndex, config, t)
  {
  }

  /** The buffers and transforms of the frame's channels are neither the reader nor the frame's block and channel objects. */
  lemma PartsOutsideObjects(reader: BitReader, frame: Frame)
    ensures forall i, k :: 0 <= i < |frame.Blocks| && 0 <= k < |frame.Blocks[i].Channels| ==>
      var c := frame.Blocks[i].Channels[k];
      forall o ::
        o in {c.Pcm, c.Spectra, c.Mdct, c.Mdct.tables, c.Mdct.imdctWindow, c.Mdct.imdctPrevious, c.Mdct.scratchDct, c.Mdct.scratchMdct}
        ==> o !in FrameObjects(frame) && o != reader
  {
  }

  /** Blocks of a decodable frame can be read with tables that fit. */
  lemma FrameReadyOf(frame: Frame, t: CodecTables)
    requires FrameShape(frame) && BlocksDecodable(frame) && ScaleFactorTables(t) && SpectrumTables(t) && BexTables(t)
    ensures FrameReady(BlockTypes(frame), FrameView(frame), frame.Config, t)
  {
    forall i | 0 <= i < |frame.Blocks|
      ensures BodyReady(frame.Blocks[i].State(), ChannelStates(frame.Blocks[i].Channels), frame.Blocks[i].BlockType, frame.Config)
    {
      assert BlockShape(frame, frame.Blocks[i], i) && Decodable(frame.Blocks[i]);
      DecodableBodyReady(frame.Blocks[i]);
      StatesViewed(frame.Blocks[i]);
    }
  }

  /** A step that changed no buffer or transform of block b's channels leaves them as they were. */
  twostate lemma BuffersKept(b: Block)
    requires forall k :: 0 <= k < |b.Channels| ==> var c := b.Channels[k];
      unchanged(c.Pcm, c.Spectra, c.Mdct, c.Mdct.tables, c.Mdct.imdctWindow, c.Mdct.imdctPrevious, c.Mdct.scratchDct, c.Mdct.scratchMdct)
    ensures SameBuffers(old(BlockViewOf(b)), BlockViewOf(b))
  {
  }

  /** Block values with the same buffers and the same fields are the same. */
  lemma SameStatesSameView(v: BlockView, w: BlockView)
    requires SameBuffers(v, w) && v.state == w.state && ViewStates(v.channels) == ViewStates(w.channels)
    ensures v == w
  {
    assert forall k :: 0 <= k < |v.channels| ==> v.channels[k].state == ViewStates(v.channels)[k];
  }

  /** Neither the reader nor the frame object is among what decoding the frame's blocks writes. */
  lemma OutsideFrame(reader: BitReader, frame: Frame)
    requires FrameShape(frame)
    ensures reader as object !in FrameObjects(frame) && reader as object !in FrameBuffers(frame)
    ensures frame as object !in FrameObjects(frame) && frame as object !in FrameBuffers(frame)
  {
  }

  /** The transforms' shared tables are none of the frame's block and channel objects. */
  lemma TablesOutsideFrame(frame: Frame)
    requires FrameDecodable(frame)
    ensures frame.Tables !in FrameObjects(frame)
  {
  }

  /** Steps that leave the shared tables alone keep every block's transforms apart. */
  twostate lemma TablesKept(frame: Frame)
    requires FrameShape(frame) && old(BlocksTransformable(frame)) && unchanged(frame.Tables)
    ensures BlocksTransformable(frame)
  {
  }

  /** The stages of every block in order, up to the first band extension that throws. */
  method DecodeBlocks(frame: Frame, t: CodecTables, exp2: real -> real) returns (r: Outcome<DecodeError>)
    requires B.BexLayout(t) && FrameDecodable(frame) && BlocksTransformable(frame) && WindowsOutside(frame)
    modifies FrameObjects(frame), FrameBuffers(frame)
    ensures FrameDecodable(frame) && BlocksTransformable(frame)
    ensures BlockStates(frame) == old(BlockStates(frame))
    ensures r.Pass? <==> forall i :: 0 <= i < |frame.Blocks| ==> !B.ExtensionFails(old(BlockStates(frame))[i])
    ensures r.Pass? ==> forall i :: 0 <= i < |frame.Blocks| ==>
      BlockDecoded(frame.Blocks[i].BlockType, old(BlockViewOf(frame.Blocks[i])),
        ViewStates(old(BlockViewOf(frame.Blocks[i])).channels), BlockViewOf(frame.Blocks[i]), t, exp2)
  {
    hide *;
    FrameParts(frame);
    ghost var states := BlockStates(frame);
    r := Pass;
    var i := 0;
    while i < |frame.Blocks|
      invariant 0 <= i <= |frame.Blocks| && FrameShape(frame) && BlocksDecodable(frame) && BlocksTransformable(frame)
      invariant BlockStates(frame) == states
      invariant r.Pass?
      invariant forall j :: 0 <= j < i ==> !B.ExtensionFails(states[j])
      invariant forall j :: 0 <= j < i ==>
        BlockDecoded(frame.Blocks[j].BlockType, old(BlockViewOf(frame.Blocks[j])),
          ViewStates(old(BlockViewOf(frame.Blocks[j])).channels), BlockViewOf(frame.Blocks[j]), t, exp2)
      invariant forall j :: i <= j < |frame.Blocks| ==> BlockViewOf(frame.Blocks[j]) == old(BlockViewOf(frame.Blocks[j]))
    {
      ChannelsInFrame(frame, i);
      BlockStagesInFrame(frame, i);
      StatesViewed(frame.Blocks[i]);
      r := DecodeFrameBlock(frame, i, t, exp2);
      if r.Fail? {
        FrameWhole(frame);
        return;
      }
      assert !B.ExtensionFails(states[i]);
      assert forall j :: 0 <= j < i + 1 ==> !B.ExtensionFails(states[j]);
      i := i + 1;
    }
    FrameWhole(frame);
  }

  /** The channel states of a block are the states its values hold. */
  lemma StatesViewed(b: Block)
    ensures ChannelStates(b.Channels) == ViewStates(BlockViewOf(b).channels)
  {
  }
}
