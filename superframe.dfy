/**
 * `decodeSuperFrame`: the frames of one superframe in order, each decoded from the reader,
 * written as 16-bit samples into its own window of the outputs, and followed by byte alignment.
 */
module Superframes {
  import opened JsInt
  import opened Wrappers
  import opened RuntimeTables
  import opened DecodeState
  import opened BitReading
  import opened FrameUnpacking
  import opened PcmOutput
  import opened Decoding
  import opened Config
  import B = BandExtension

  /**
   * What the frames decoded so far left in the channels: frame f, output channel c, the first
   * frameSamples PCM samples.
   */
  ghost predicate Decoded(decoded: seq<seq<seq<real>>>, channels: nat, frameSamples: nat)
  {
    forall f :: 0 <= f < |decoded| ==>
      |decoded[f]| == channels && forall c :: 0 <= c < channels ==> |decoded[f][c]| == frameSamples
  }

  /**
   * The slot s of output c once the frames in `decoded` have been written: frame s / frameSamples
   * supplies it at offset s % frameSamples when that frame was decoded and c is one of its
   * channels; any other slot keeps `previous`.
   */
  ghost function SuperframeSample(previous: uint16, decoded: seq<seq<seq<real>>>, channels: nat, frameSamples: nat, c: nat, s: nat): uint16
    requires frameSamples > 0 && Decoded(decoded, channels, frameSamples)
  {
    if c < channels && s / frameSamples < |decoded| then ShortSample(decoded[s / frameSamples][c][s % frameSamples])
    else previous
  }

  /** One frame's samples: frameSamples of them for each of the channels. */
  predicate SamplesShaped(samples: seq<seq<real>>, channels: nat, frameSamples: nat)
  {
    |samples| == channels && forall c :: 0 <= c < channels ==> |samples[c]| == frameSamples
  }

  /** The first frameSamples PCM samples of each channel. */
  ghost function ChannelSamples(channels: seq<Channel>, frameSamples: nat): (r: seq<seq<real>>)
    requires forall c :: 0 <= c < |channels| ==> frameSamples <= channels[c].Pcm.Length
    reads set c | 0 <= c < |channels| :: channels[c].Pcm
    ensures |r| == |channels| && forall c :: 0 <= c < |channels| ==> r[c] == channels[c].Pcm[..frameSamples]
  {
    seq(|channels|, c requires 0 <= c < |channels| && frameSamples <= channels[c].Pcm.Length
                      reads set k | 0 <= k < |channels| :: channels[k].Pcm =>
      channels[c].Pcm[..frameSamples])
  }

  /** The channels' values of the blocks in output order: block by block, each block's channels in order. */
  function ViewChannels(views: seq<BlockView>): seq<ChannelView>
  {
    if |views| == 0 then [] else ViewChannels(views[..|views| - 1]) + views[|views| - 1].channels
  }

  /** One frame's samples on values: the first frameSamples PCM samples of each channel, in output order. */
  ghost predicate SamplesOf(views: seq<BlockView>, frameSamples: nat, samples: seq<seq<real>>)
  {
    var cs := ViewChannels(views);
    |samples| == |cs| && forall c :: 0 <= c < |cs| ==> frameSamples <= |cs[c].pcm| && samples[c] == cs[c].pcm[..frameSamples]
  }

  /** The channels' values in output order are the values of the channels in output order. */
  lemma {:induction false} FrameChannelsViewed(blocks: seq<Block>, views: seq<BlockView>)
    requires |views| == |blocks| && forall i :: 0 <= i < |blocks| ==> views[i] == BlockViewOf(blocks[i])
    ensures |ViewChannels(views)| == |FrameChannels(blocks)|
    ensures forall c :: 0 <= c < |FrameChannels(blocks)| ==> ViewChannels(views)[c] == ViewOf(FrameChannels(blocks)[c])
  {
    if |blocks| > 0 {
      var n := |blocks| - 1;
      FrameChannelsViewed(blocks[..n], views[..n]);
      var front := FrameChannels(blocks[..n]);
      forall c | |front| <= c < |FrameChannels(blocks)|
        ensures ViewChannels(views)[c] == ViewOf(FrameChannels(blocks)[c])
      {
        assert FrameChannels(blocks)[c] == blocks[n].Channels[c - |front|];
        assert ViewChannels(views)[c] == views[n].channels[c - |front|];
      }
    }
  }

  /** The samples `OutputStep` takes from the channels are the samples of the frame's values. */
  lemma SamplesViewed(frame: Frame, frameSamples: nat, samples: seq<seq<real>>)
    requires SamplesFit(frame.Blocks, frameSamples)
    requires samples == ChannelSamples(FrameChannels(frame.Blocks), frameSamples)
    ensures SamplesOf(FrameView(frame), frameSamples, samples)
  {
    var views := FrameView(frame);
    FrameChannelsViewed(frame.Blocks, views);
    forall c | 0 <= c < |ViewChannels(views)|
      ensures frameSamples <= |ViewChannels(views)[c].pcm| && samples[c] == ViewChannels(views)[c].pcm[..frameSamples]
    {
      assert ViewChannels(views)[c].pcm == FrameChannels(frame.Blocks)[c].Pcm[..];
    }
  }

  /** Slot s lies in the window of frame i exactly when s / frameSamples is i. */
  lemma WindowIndex(s: nat, i: nat, frameSamples: nat)
    requires frameSamples > 0
    ensures i * frameSamples <= s < i * frameSamples + frameSamples ==> s / frameSamples == i && s % frameSamples == s - i * frameSamples
    ensures s < i * frameSamples ==> s / frameSamples < i
    ensures i * frameSamples + frameSamples <= s ==> s / frameSamples > i
  {
    var q, m := s / frameSamples, s % frameSamples;
    assert s == q * frameSamples + m;
    if i * frameSamples <= s < i * frameSamples + frameSamples {
      DivModUnique(s, frameSamples, i, s - i * frameSamples);
    }
  }

  /**
   * Writing frame i's window extends the superframe picture by frame i: the outputs written
   * as `PcmFloatToShort` writes them agree with `SuperframeSample` over decoded + [samples].
   */
  lemma WindowExtends(previous: uint16, written: uint16, before: uint16, decoded: seq<seq<seq<real>>>, samples: seq<seq<real>>,
                      channels: nat, frameSamples: nat, c: nat, s: nat)
    requires frameSamples > 0 && Decoded(decoded, channels, frameSamples)
    requires |samples| == channels && forall k :: 0 <= k < channels ==> |samples[k]| == frameSamples
    requires before == SuperframeSample(previous, decoded, channels, frameSamples, c, s)
    requires var start := |decoded| * frameSamples;
      written == if c < channels && start <= s < start + frameSamples then ShortSample(samples[c][s - start]) else before
    ensures Decoded(decoded + [samples], channels, frameSamples)
    ensures written == SuperframeSample(previous, decoded + [samples], channels, frameSamples, c, s)
  {
    WindowIndex(s, |decoded|, frameSamples);
    var next := decoded + [samples];
    assert forall f :: 0 <= f < |decoded| ==> next[f] == decoded[f];
  }

  /**
   * The decoding state of the frame between frames: its layout, every block ready to decode,
   * every block's transforms apart.
   */
  ghost predicate Ready(frame: Frame)
    reads frame.Blocks, set i, k | 0 <= i < |frame.Blocks| && 0 <= k < |frame.Blocks[i].Channels| :: frame.Blocks[i].Channels[k]
    reads TransformObjects(frame)
  {
    && FrameShape(frame) && BlocksDecodable(frame) && BlocksTransformable(frame) && WindowsOutside(frame)
    && frame.Config.SampleRateIndex < 16
  }

  /**
   * The first half of a pass of `decodeSuperFrame`'s loop: set the frame index, then decode the
   * frame as `FrameDecoded` says for that index.
   */
  method DecodeStep(reader: BitReader, frame: Frame, ghost pcmOut: seq<array<uint16>>, index: nat, t: CodecTables, exp2: real -> real)
    returns (r: Outcome<DecodeError>, ghost tr: FrameTrace)
    requires reader.Valid() && ScaleFactorTables(t) && SpectrumTables(t) && B.BexLayout(t)
    requires Ready(frame)
    modifies reader, frame, FrameObjects(frame), FrameBuffers(frame)
    ensures reader.Valid() && unchanged(reader`buffer, reader`bits)
    ensures Ready(frame) && frame.FrameIndex == index
    ensures old(FrameReady(BlockTypes(frame), FrameView(frame), frame.Config, t))
    ensures FrameDecoded(BlockTypes(frame), old(FrameView(frame)), reader.bits, old(reader.position), tr, r,
      FrameView(frame), index, frame.Config, t, exp2)
    ensures reader.position == StartOf(old(reader.position), tr.stops, |tr.stops|)
    ensures r.Pass? && |frame.Blocks| > 0 ==> reader.position % 8 == 0
    ensures forall c, s :: 0 <= c < |pcmOut| && 0 <= s < pcmOut[c].Length ==> pcmOut[c][s] == old(pcmOut[c][s])
  {
    hide *;
    ReadyParts(frame);
    FrameWhole(frame);
    OutputsOutsideFrame(reader, frame, pcmOut);
    FrameOutsideParts(frame);
    FrameOutsideViews(frame);
    SetFrameIndex(frame, index);
    FrameViewUnmoved(frame);
    r, tr := DecodeFrame(reader, frame, t, exp2);
    OutputsKept(pcmOut);
    FrameParts(frame);
    ReadyWhole(frame);
  }

  /** The frame object is none of the objects its blocks' values live in. */
  lemma FrameOutsideViews(frame: Frame)
    ensures forall i, o :: 0 <= i < |frame.Blocks| && o in BlockParts(frame.Blocks[i]) ==> allocated(o) && o != frame
  {
  }

  /** What `Ready` holds, one by one. */
  lemma ReadyParts(frame: Frame)
    requires Ready(frame)
    ensures FrameShape(frame) && BlocksDecodable(frame) && BlocksTransformable(frame) && WindowsOutside(frame)
    ensures frame.Config.SampleRateIndex < 16
  {
  }

  /** `Ready`, from what it holds. */
  lemma ReadyWhole(frame: Frame)
    requires FrameShape(frame) && BlocksDecodable(frame) && BlocksTransformable(frame) && WindowsOutside(frame)
    requires frame.Config.SampleRateIndex < 16
    ensures Ready(frame)
  {
  }

  /** `this.Frame.FrameIndex = i`: the index changes, and with it nothing the decoding relies on. */
  method SetFrameIndex(frame: Frame, index: nat)
    requires FrameDecodable(frame) && BlocksTransformable(frame)
    modifies frame
    ensures FrameDecodable(frame) && BlocksTransformable(frame) && frame.FrameIndex == index
  {
    FrameParts(frame);
    frame.FrameIndex := index;
    FrameWhole(frame);
  }

  /** Every output channel holds at least frameSamples PCM samples. */
  predicate SamplesFit(blocks: seq<Block>, frameSamples: nat)
  {
    forall c :: 0 <= c < |FrameChannels(blocks)| ==> frameSamples <= FrameChannels(blocks)[c].Pcm.Length
  }

  /** The outputs are separate arrays with room for a superframe on each of the first `channels`. */
  predicate OutputsFit(pcmOut: seq<array<uint16>>, channels: nat, superframeSamples: nat)
  {
    channels <= |pcmOut| && OutputsApart(pcmOut) &&
    forall c :: 0 <= c < channels ==> superframeSamples <= pcmOut[c].Length
  }

  /**
   * The second half of a pass of `decodeSuperFrame`'s loop: the frame's PCM into the outputs'
   * window that starts at `start`, then the reader aligned to a byte.
   */
  method OutputStep(reader: BitReader, blocks: seq<Block>, frameSamples: nat, pcmOut: seq<array<uint16>>, start: nat)
    returns (ghost samples: seq<seq<real>>)
    requires reader.Valid() && SamplesFit(blocks, frameSamples)
    requires OutputsFit(pcmOut, |FrameChannels(blocks)|, start + frameSamples)
    modifies reader, Outputs(pcmOut)
    ensures reader.Valid() && unchanged(reader`buffer, reader`bits) && reader.position == AlignUp(old(reader.position), 8)
    ensures samples == ChannelSamples(FrameChannels(blocks), frameSamples)
    ensures SamplesShaped(samples, |FrameChannels(blocks)|, frameSamples)
    ensures forall c, s :: 0 <= c < |pcmOut| && 0 <= s < pcmOut[c].Length ==>
      pcmOut[c][s] ==
        if c < |FrameChannels(blocks)| && start <= s < start + frameSamples
        then ShortSample(samples[c][s - start])
        else old(pcmOut[c][s])
  {
    PcmFloatToShort(blocks, frameSamples, pcmOut, start);
    samples := ChannelSamples(FrameChannels(blocks), frameSamples);
    reader.AlignPosition(8);
  }

  /** Where the frame after a frame read from `start` as `tr` records begins: past its last block, aligned to a byte. */
  function NextStart(start: nat, tr: FrameTrace): nat
  {
    AlignUp(StartOf(start, tr.stops, |tr.stops|), 8)
  }

  /**
   * Frame `index` of a superframe on values: its blocks, of the kinds `types` and holding
   * `before`, read from `bits` at `start` and decoded into `after` as `FrameDecoded` says; when
   * it passes, `samples` are the first `FrameSamples` PCM samples of each channel it decoded.
   */
  ghost predicate FrameStepped(types: seq<int>, config: Atrac9Config, t: CodecTables, exp2: real -> real, bits: seq<bool>,
                               index: nat, start: nat, before: seq<BlockView>, tr: FrameTrace, r: Outcome<DecodeError>,
                               after: seq<BlockView>, samples: seq<seq<real>>)
  {
    && FrameReady(types, before, config, t)
    && FrameDecoded(types, before, bits, start, tr, r, after, index, config, t, exp2)
    && (r.Pass? ==> SamplesOf(after, config.FrameSamples, samples))
  }

  /**
   * One pass of `decodeSuperFrame`'s loop, frame `index`: the frame decoded with that index as
   * `FrameStepped` says and, when it decodes, its samples written into the outputs' window for
   * that index and the reader aligned to a byte. When it fails, the outputs are as they were.
   */
  method FrameStep(reader: BitReader, frame: Frame, pcmOut: seq<array<uint16>>, index: nat, start: nat, t: CodecTables, exp2: real -> real)
    returns (r: Outcome<DecodeError>, ghost tr: FrameTrace, ghost samples: seq<seq<real>>)
    requires reader.Valid() && ScaleFactorTables(t) && SpectrumTables(t) && B.BexLayout(t)
    requires Ready(frame) && SamplesFit(frame.Blocks, frame.Config.FrameSamples)
    requires OutputsFit(pcmOut, |FrameChannels(frame.Blocks)|, start + frame.Config.FrameSamples)
    modifies reader, frame, FrameObjects(frame), FrameBuffers(frame), Outputs(pcmOut)
    ensures reader.Valid() && unchanged(reader`buffer, reader`bits)
    ensures Ready(frame) && frame.FrameIndex == index
    ensures r.Pass? ==> reader.position == NextStart(old(reader.position), tr) && reader.position % 8 == 0
    ensures r.Pass? ==> SamplesShaped(samples, |FrameChannels(frame.Blocks)|, frame.Config.FrameSamples)
    ensures r.Pass? ==> forall c, s :: 0 <= c < |pcmOut| && 0 <= s < pcmOut[c].Length ==>
      pcmOut[c][s] ==
        if c < |FrameChannels(frame.Blocks)| && start <= s < start + frame.Config.FrameSamples
        then ShortSample(samples[c][s - start])
        else old(pcmOut[c][s])
    ensures r.Fail? ==> samples == [] && forall c, s :: 0 <= c < |pcmOut| && 0 <= s < pcmOut[c].Length ==> pcmOut[c][s] == old(pcmOut[c][s])
    ensures FrameStepped(BlockTypes(frame), frame.Config, t, exp2, reader.bits, index, old(reader.position),
      old(FrameView(frame)), tr, r, FrameView(frame), samples)
  {
    hide *;
    ghost var before, position := FrameView(frame), reader.position;
    r, tr := DecodeStep(reader, frame, pcmOut, index, t, exp2);
    ghost var after := FrameView(frame);
    if r.Fail? {
      samples := [];
      FrameSteppedOf(BlockTypes(frame), frame.Config, t, exp2, reader.bits, index, position, before, tr, r, after, samples);
      return;
    }
    samples := OutputPhase(reader, frame, pcmOut, start);
    SamplesViewed(frame, frame.Config.FrameSamples, samples);
    FrameSteppedOf(BlockTypes(frame), frame.Config, t, exp2, reader.bits, index, position, before, tr, r, after, samples);
    NextStartOf(position, tr);
  }

  /** `FrameStepped`, from what it holds. */
  lemma FrameSteppedOf(types: seq<int>, config: Atrac9Config, t: CodecTables, exp2: real -> real, bits: seq<bool>,
                       index: nat, start: nat, before: seq<BlockView>, tr: FrameTrace, r: Outcome<DecodeError>,
                       after: seq<BlockView>, samples: seq<seq<real>>)
    requires FrameReady(types, before, config, t)
    requires FrameDecoded(types, before, bits, start, tr, r, after, index, config, t, exp2)
    requires r.Pass? ==> SamplesOf(after, config.FrameSamples, samples)
    ensures FrameStepped(types, config, t, exp2, bits, index, start, before, tr, r, after, samples)
  {
  }

  /** Where the next frame begins, spelled out. */
  lemma NextStartOf(start: nat, tr: FrameTrace)
    ensures NextStart(start, tr) == AlignUp(StartOf(start, tr.stops, |tr.stops|), 8)
  {
  }

  /** `OutputStep` on a frame whose decoding state and values it leaves alone. */
  method OutputPhase(reader: BitReader, frame: Frame, pcmOut: seq<array<uint16>>, start: nat) returns (ghost samples: seq<seq<real>>)
    requires reader.Valid() && SamplesFit(frame.Blocks, frame.Config.FrameSamples)
    requires OutputsFit(pcmOut, |FrameChannels(frame.Blocks)|, start + frame.Config.FrameSamples)
    requires Ready(frame)
    modifies reader, Outputs(pcmOut)
    ensures Ready(frame) && unchanged(frame) && FrameView(frame) == old(FrameView(frame))
    ensures reader.Valid() && unchanged(reader`buffer, reader`bits) && reader.position == AlignUp(old(reader.position), 8)
    ensures samples == ChannelSamples(FrameChannels(frame.Blocks), frame.Config.FrameSamples)
    ensures SamplesShaped(samples, |FrameChannels(frame.Blocks)|, frame.Config.FrameSamples)
    ensures forall c, s :: 0 <= c < |pcmOut| && 0 <= s < pcmOut[c].Length ==>
      pcmOut[c][s] ==
        if c < |FrameChannels(frame.Blocks)| && start <= s < start + frame.Config.FrameSamples
        then ShortSample(samples[c][s - start])
        else old(pcmOut[c][s])
  {
    hide *;
    ReadyParts(frame);
    FrameApartFromOutputs(reader, frame, pcmOut);
    samples := OutputStep(reader, frame.Blocks, frame.Config.FrameSamples, pcmOut, start);
    FrameKept(frame);
    FrameViewKept(frame);
    ReadyWhole(frame);
  }

  /** No object of the frame's decoding state is the reader or an output. */
  lemma FrameApartFromOutputs(reader: BitReader, frame: Frame, pcmOut: seq<array<uint16>>)
    ensures forall i, k :: 0 <= i < |frame.Blocks| && 0 <= k < |frame.Blocks[i].Channels| ==>
      var c := frame.Blocks[i].Channels[k];
      && c as object !in Outputs(pcmOut) + {reader} && c.Mdct as object !in Outputs(pcmOut) + {reader}
      && c.Mdct.tables as object !in Outputs(pcmOut) + {reader}
      && forall o :: o in {c.Pcm, c.Spectra, c.Mdct.imdctWindow, c.Mdct.imdctPrevious, c.Mdct.scratchDct, c.Mdct.scratchMdct} ==>
           o !in Outputs(pcmOut) + {reader}
    ensures forall i :: 0 <= i < |frame.Blocks| ==> frame.Blocks[i] as object !in Outputs(pcmOut) + {reader}
    ensures frame as object !in Outputs(pcmOut) + {reader}
  {
  }

  /** A frame whose blocks, channels and transforms are unchanged keeps its decoding state. */
  twostate lemma FrameKept(frame: Frame)
    requires FrameShape(frame) && old(BlocksDecodable(frame) && BlocksTransformable(frame))
    requires forall i :: 0 <= i < |frame.Blocks| ==> unchanged(frame.Blocks[i])
    requires forall i, k :: 0 <= i < |frame.Blocks| && 0 <= k < |frame.Blocks[i].Channels| ==>
      unchanged(frame.Blocks[i].Channels[k], frame.Blocks[i].Channels[k].Mdct, frame.Blocks[i].Channels[k].Mdct.tables)
    ensures BlocksDecodable(frame) && BlocksTransformable(frame)
  {
  }

  /** A frame whose blocks, channels, buffers and transforms are unchanged holds the values it held. */
  twostate lemma FrameViewKept(frame: Frame)
    requires forall i :: 0 <= i < |frame.Blocks| ==> unchanged(frame.Blocks[i])
    requires forall i, k :: 0 <= i < |frame.Blocks| && 0 <= k < |frame.Blocks[i].Channels| ==>
      var c := frame.Blocks[i].Channels[k];
      unchanged(c, c.Pcm, c.Spectra, c.Mdct, c.Mdct.tables, c.Mdct.imdctWindow, c.Mdct.imdctPrevious, c.Mdct.scratchDct, c.Mdct.scratchMdct)
    ensures FrameView(frame) == old(FrameView(frame))
  {
    forall i | 0 <= i < |frame.Blocks| ensures BlockViewOf(frame.Blocks[i]) == old(BlockViewOf(frame.Blocks[i])) {
      ViewKept(frame.Blocks[i]);
    }
  }

  /** A frame none of whose blocks' parts changed holds the values it held. */
  twostate lemma FrameViewUnmoved(frame: Frame)
    requires forall i, o :: 0 <= i < |frame.Blocks| && o in BlockParts(frame.Blocks[i]) ==> unchanged(o)
    ensures FrameView(frame) == old(FrameView(frame))
  {
    forall i | 0 <= i < |frame.Blocks| ensures BlockViewOf(frame.Blocks[i]) == old(BlockViewOf(frame.Blocks[i])) {
      ViewKept(frame.Blocks[i]);
    }
  }

  /** The outputs are none of the objects decoding a frame writes. */
  lemma OutputsOutsideFrame(reader: BitReader, frame: Frame, pcmOut: seq<array<uint16>>)
    ensures forall c :: 0 <= c < |pcmOut| ==>
      pcmOut[c] !in FrameObjects(frame) && pcmOut[c] !in FrameBuffers(frame) && pcmOut[c] as object != reader && pcmOut[c] as object != frame
  {
  }

  /** The frame object itself is none of its blocks, channels or buffers. */
  lemma FrameOutsideParts(frame: Frame)
    ensures frame as object !in FrameObjects(frame) && frame as object !in FrameBuffers(frame)
  {
  }

  /** Outputs that are unchanged hold the values they held. */
  twostate lemma OutputsKept(pcmOut: seq<array<uint16>>)
    requires forall c :: 0 <= c < |pcmOut| ==> unchanged(pcmOut[c])
    ensures forall c, s :: 0 <= c < |pcmOut| && 0 <= s < pcmOut[c].Length ==> pcmOut[c][s] == old(pcmOut[c][s])
  {
  }

  /** The outputs' contents. */
  ghost function Snapshot(pcmOut: seq<array<uint16>>): (r: seq<seq<uint16>>)
    reads Outputs(pcmOut)
    ensures |r| == |pcmOut| && forall c :: 0 <= c < |pcmOut| ==> r[c] == pcmOut[c][..]
  {
    seq(|pcmOut|, c requires 0 <= c < |pcmOut| reads Outputs(pcmOut) => pcmOut[c][..])
  }

  /**
   * The outputs hold, slot by slot, what the frames in `decoded` wrote over the contents
   * `previous` they had before the superframe.
   */
  ghost predicate Written(pcmOut: seq<array<uint16>>, previous: seq<seq<uint16>>, decoded: seq<seq<seq<real>>>,
                          channels: nat, frameSamples: nat)
    requires frameSamples > 0 && Decoded(decoded, channels, frameSamples)
    reads Outputs(pcmOut)
  {
    && |previous| == |pcmOut| && (forall c :: 0 <= c < |pcmOut| ==> |previous[c]| == pcmOut[c].Length)
    && forall c, s :: 0 <= c < |pcmOut| && 0 <= s < pcmOut[c].Length ==>
         pcmOut[c][s] == SuperframeSample(previous[c][s], decoded, channels, frameSamples, c, s)
  }

  /** `Written`, of the outputs' contents `out` rather than of the arrays. */
  ghost predicate WrittenValues(out: seq<seq<uint16>>, previous: seq<seq<uint16>>, decoded: seq<seq<seq<real>>>,
                                channels: nat, frameSamples: nat)
    requires frameSamples > 0 && Decoded(decoded, channels, frameSamples)
  {
    && |previous| == |out| && (forall c :: 0 <= c < |out| ==> |previous[c]| == |out[c]|)
    && forall c, s :: 0 <= c < |out| && 0 <= s < |out[c]| ==>
         out[c][s] == SuperframeSample(previous[c][s], decoded, channels, frameSamples, c, s)
  }

  /** What `Written` says of the outputs, their snapshot says of their contents. */
  lemma WrittenSnapshot(pcmOut: seq<array<uint16>>, before: seq<seq<uint16>>, previous: seq<seq<uint16>>,
                        decoded: seq<seq<seq<real>>>, channels: nat, frameSamples: nat)
    requires frameSamples > 0 && Decoded(decoded, channels, frameSamples)
    requires Written(pcmOut, previous, decoded, channels, frameSamples)
    requires |before| == |pcmOut| && forall c :: 0 <= c < |pcmOut| ==> before[c] == pcmOut[c][..]
    ensures WrittenValues(before, previous, decoded, channels, frameSamples)
  {
  }

  /**
   * One pass of `decodeSuperFrame`'s loop, as the loop sees it: frame `index` decoded and, when
   * it decodes, written after the frames before it; when it fails, the outputs stay as they were.
   */
  method FramePass(reader: BitReader, frame: Frame, pcmOut: seq<array<uint16>>, index: nat,
                   t: CodecTables, exp2: real -> real, ghost previous: seq<seq<uint16>>, ghost decoded: seq<seq<seq<real>>>)
    returns (r: Outcome<DecodeError>, ghost next: seq<seq<seq<real>>>, ghost tr: FrameTrace)
    requires reader.Valid() && ScaleFactorTables(t) && SpectrumTables(t) && B.BexLayout(t)
    requires Ready(frame) && SamplesFit(frame.Blocks, frame.Config.FrameSamples) && frame.Config.FrameSamples > 0
    requires OutputsFit(pcmOut, |FrameChannels(frame.Blocks)|, frame.Config.FramesPerSuperframe * frame.Config.FrameSamples)
    requires |decoded| == index < frame.Config.FramesPerSuperframe
    requires Decoded(decoded, |FrameChannels(frame.Blocks)|, frame.Config.FrameSamples)
    requires Written(pcmOut, previous, decoded, |FrameChannels(frame.Blocks)|, frame.Config.FrameSamples)
    modifies reader, frame, FrameObjects(frame), FrameBuffers(frame), Outputs(pcmOut)
    ensures reader.Valid() && unchanged(reader`buffer, reader`bits)
    ensures Ready(frame) && frame.FrameIndex == index
    ensures r.Pass? ==> reader.position % 8 == 0 && |next| == index + 1 && next[..index] == decoded
    ensures r.Fail? ==> next == decoded
    ensures r.Pass? ==> reader.position == NextStart(old(reader.position), tr)
    ensures Decoded(next, |FrameChannels(frame.Blocks)|, frame.Config.FrameSamples)
    ensures Written(pcmOut, previous, next, |FrameChannels(frame.Blocks)|, frame.Config.FrameSamples)
    ensures FrameStepped(BlockTypes(frame), frame.Config, t, exp2, reader.bits, index, old(reader.position),
      old(FrameView(frame)), tr, r, FrameView(frame), if r.Pass? then next[index] else [])
  {
    hide FrameStepped, FrameView, Ready, BlockTypes, NextStart;
    ghost var channels, frameSamples := |FrameChannels(frame.Blocks)|, frame.Config.FrameSamples;
    WindowsFit(index, frame.Config.FramesPerSuperframe, frameSamples);
    var start := index * frame.Config.FrameSamples;
    ghost var before := Snapshot(pcmOut);
    WrittenSnapshot(pcmOut, before, previous, decoded, channels, frameSamples);
    ghost var samples;
    r, tr, samples := FrameStep(reader, frame, pcmOut, index, start, t, exp2);
    next := decoded;
    if r.Pass? {
      WrittenExtends(pcmOut, before, previous, decoded, samples, channels, frameSamples, start);
      next := decoded + [samples];
      assert next[..index] == decoded && next[index] == samples;
    } else {
      WrittenKept(pcmOut, before, previous, decoded, channels, frameSamples);
    }
  }

  /** Writing the next frame's window over contents that hold the frames before it. */
  lemma WrittenExtends(pcmOut: seq<array<uint16>>, before: seq<seq<uint16>>, previous: seq<seq<uint16>>,
                       decoded: seq<seq<seq<real>>>, samples: seq<seq<real>>, channels: nat, frameSamples: nat, start: nat)
    requires frameSamples > 0 && Decoded(decoded, channels, frameSamples) && SamplesShaped(samples, channels, frameSamples)
    requires start == |decoded| * frameSamples
    requires WrittenValues(before, previous, decoded, channels, frameSamples)
    requires |before| == |pcmOut| && forall c :: 0 <= c < |pcmOut| ==> |before[c]| == pcmOut[c].Length
    requires forall c, s :: 0 <= c < |pcmOut| && 0 <= s < pcmOut[c].Length ==>
      pcmOut[c][s] ==
        if c < channels && start <= s < start + frameSamples
        then ShortSample(samples[c][s - start])
        else before[c][s]
    ensures Decoded(decoded + [samples], channels, frameSamples)
    ensures Written(pcmOut, previous, decoded + [samples], channels, frameSamples)
  {
    forall c, s | 0 <= c < |pcmOut| && 0 <= s < pcmOut[c].Length
      ensures pcmOut[c][s] == SuperframeSample(previous[c][s], decoded + [samples], channels, frameSamples, c, s)
    {
      WindowExtends(previous[c][s], pcmOut[c][s], before[c][s], decoded, samples, channels, frameSamples, c, s);
    }
    var next := decoded + [samples];
    assert forall f :: 0 <= f < |decoded| ==> next[f] == decoded[f];
  }

  /** Outputs whose contents are as they were still hold the frames before. */
  lemma WrittenKept(pcmOut: seq<array<uint16>>, before: seq<seq<uint16>>, previous: seq<seq<uint16>>,
                    decoded: seq<seq<seq<real>>>, channels: nat, frameSamples: nat)
    requires frameSamples > 0 && Decoded(decoded, channels, frameSamples)
    requires WrittenValues(before, previous, decoded, channels, frameSamples)
    requires |before| == |pcmOut| && forall c :: 0 <= c < |pcmOut| ==> |before[c]| == pcmOut[c].Length
    requires forall c, s :: 0 <= c < |pcmOut| && 0 <= s < pcmOut[c].Length ==> pcmOut[c][s] == before[c][s]
    ensures Written(pcmOut, previous, decoded, channels, frameSamples)
  {
  }

  /** The next window starts where this one ends and still fits the superframe. */
  lemma WindowsFit(i: nat, frames: nat, frameSamples: nat)
    requires i < frames
    ensures 0 <= i * frameSamples
    ensures (i + 1) * frameSamples == i * frameSamples + frameSamples
    ensures i * frameSamples + frameSamples <= frames * frameSamples
  {
    MulLeft(0, i, frameSamples);
    MulDist(i, 1, frameSamples);
    MulLeft(i + 1, frames, frameSamples);
  }

  /**
   * What a superframe went through: where each frame read began, the values the frame's blocks
   * held before each frame and after the last, and what each frame's unpacking recorded.
   */
  datatype SuperframeRun = SuperframeRun(starts: seq<nat>, views: seq<seq<BlockView>>, traces: seq<FrameTrace>)

  /** The run began with the blocks holding `first` and ended with them holding `last`. */
  ghost predicate Spans(run: SuperframeRun, first: seq<BlockView>, last: seq<BlockView>)
  {
    0 < |run.views| && run.views[0] == first && run.views[|run.views| - 1] == last
  }

  /**
   * `decodeSuperFrame` on values: frames 0, 1, ... of the superframe read from `bits`, frame f
   * from starts[f] (the first from `start`, each next one where `NextStart` puts it), its blocks
   * holding views[f] before and views[f + 1] after, as `FrameStepped` says for index f. Every
   * frame in `decoded` passed with those samples; when the superframe fails, the frame after
   * them failed with r.
   */
  ghost predicate SuperframeDecoded(types: seq<int>, config: Atrac9Config, t: CodecTables, exp2: real -> real,
                                    bits: seq<bool>, start: nat, starts: seq<nat>, views: seq<seq<BlockView>>,
                                    traces: seq<FrameTrace>, r: Outcome<DecodeError>, decoded: seq<seq<seq<real>>>)
  {
    && |starts| == |traces| && |views| == |traces| + 1
    && (r.Pass? ==> |traces| == |decoded|) && (r.Fail? ==> |traces| == |decoded| + 1)
    && (0 < |starts| ==> starts[0] == start)
    && (forall f :: 0 <= f < |traces| - 1 ==> starts[f + 1] == NextStart(starts[f], traces[f]))
    && forall f :: 0 <= f < |traces| ==>
         FrameStepped(types, config, t, exp2, bits, f, starts[f], views[f], traces[f],
           if f < |decoded| then Pass else r, views[f + 1], if f < |decoded| then decoded[f] else [])
  }

  /** A frame stepped from where the frames before it left the reader extends the superframe by one frame. */
  lemma SuperframeExtends(types: seq<int>, config: Atrac9Config, t: CodecTables, exp2: real -> real, bits: seq<bool>,
                          start: nat, starts: seq<nat>, views: seq<seq<BlockView>>, traces: seq<FrameTrace>,
                          decoded: seq<seq<seq<real>>>, position: nat, tr: FrameTrace, r: Outcome<DecodeError>,
                          after: seq<BlockView>, samples: seq<seq<real>>)
    requires SuperframeDecoded(types, config, t, exp2, bits, start, starts, views, traces, Pass, decoded)
    requires position == if |traces| == 0 then start else NextStart(starts[|traces| - 1], traces[|traces| - 1])
    requires FrameStepped(types, config, t, exp2, bits, |traces|, position, views[|traces|], tr, r, after, samples)
    requires r.Fail? ==> samples == []
    ensures SuperframeDecoded(types, config, t, exp2, bits, start, starts + [position], views + [after], traces + [tr], r,
      if r.Pass? then decoded + [samples] else decoded)
  {
    hide FrameStepped, NextStart;
    var next := if r.Pass? then decoded + [samples] else decoded;
    var starts', views', traces' := starts + [position], views + [after], traces + [tr];
    forall f | 0 <= f < |traces'|
      ensures FrameStepped(types, config, t, exp2, bits, f, starts'[f], views'[f], traces'[f],
        if f < |next| then Pass else r, views'[f + 1], if f < |next| then next[f] else [])
    {
      if f < |traces| {
        assert starts'[f] == starts[f] && views'[f] == views[f] && views'[f + 1] == views[f + 1] && traces'[f] == traces[f];
        assert f < |next| && next[f] == decoded[f];
        assert FrameStepped(types, config, t, exp2, bits, f, starts[f], views[f], traces[f], Pass, views[f + 1], decoded[f]);
      } else {
        assert starts'[f] == position && views'[f] == views[|traces|] && views'[f + 1] == after && traces'[f] == tr;
        assert f < |next| <==> r.Pass?;
        assert r.Pass? ==> next[f] == samples;
      }
    }
    forall f | 0 <= f < |traces'| - 1
      ensures starts'[f + 1] == NextStart(starts'[f], traces'[f])
    {
      if f + 1 < |traces| {
        assert starts'[f + 1] == starts[f + 1];
      }
    }
  }

  /**
   * A superframe that decoded read every frame in turn: in frame f every block's header was
   * flagged first-in-superframe exactly when f is 0, no band extension threw, every block kept
   * the fields it read, and each frame ended on a byte boundary.
   */
  lemma {:induction false} SuperframePasses(types: seq<int>, config: Atrac9Config, t: CodecTables, exp2: real -> real,
                                            bits: seq<bool>, start: nat, starts: seq<nat>, views: seq<seq<BlockView>>,
                                            traces: seq<FrameTrace>, decoded: seq<seq<seq<real>>>)
    requires SuperframeDecoded(types, config, t, exp2, bits, start, starts, views, traces, Pass, decoded)
    ensures |traces| == |decoded|
    ensures forall f :: 0 <= f < |traces| ==>
      traces[f].read.Pass? && |traces[f].stops| == |traces[f].unpacked| == |views[f]| == |views[f + 1]|
    ensures forall f, i :: 0 <= f < |traces| && 0 <= i < |views[f]| ==>
      traces[f].unpacked[i].state.FirstInSuperframe == (f == 0)
    ensures forall f, i :: 0 <= f < |traces| && 0 <= i < |views[f]| ==>
      !B.ExtensionFails(traces[f].unpacked[i].state) && views[f + 1][i].state == traces[f].unpacked[i].state
    ensures forall f :: 0 <= f < |traces| && 0 < |views[f]| ==>
      var end := traces[f].stops[|views[f]| - 1];
      end % 8 == 0 && NextStart(starts[f], traces[f]) == end
  {
    hide FrameDecoded, FrameReady, FrameRead;
    forall f | 0 <= f < |traces|
      ensures traces[f].read.Pass? && |traces[f].stops| == |traces[f].unpacked| == |views[f]| == |views[f + 1]|
      ensures 0 < |views[f]| ==>
        var end := traces[f].stops[|views[f]| - 1];
        end % 8 == 0 && NextStart(starts[f], traces[f]) == end
    {
      assert FrameStepped(types, config, t, exp2, bits, f, starts[f], views[f], traces[f], Pass, views[f + 1], decoded[f]);
      FrameDecodedPasses(types, views[f], bits, starts[f], traces[f], Pass, views[f + 1], f, config, t, exp2);
      if 0 < |views[f]| {
        StartOfEnd(starts[f], traces[f].stops);
        AlignedStays(traces[f].stops[|views[f]| - 1]);
      }
    }
    forall f, i | 0 <= f < |traces| && 0 <= i < |views[f]|
      ensures traces[f].unpacked[i].state.FirstInSuperframe == (f == 0)
      ensures !B.ExtensionFails(traces[f].unpacked[i].state) && views[f + 1][i].state == traces[f].unpacked[i].state
    {
      assert FrameStepped(types, config, t, exp2, bits, f, starts[f], views[f], traces[f], Pass, views[f + 1], decoded[f]);
      FrameDecodedPasses(types, views[f], bits, starts[f], traces[f], Pass, views[f + 1], f, config, t, exp2);
    }
  }

  /** A position already on a byte boundary is where aligning it leaves it. */
  lemma AlignedStays(position: nat)
    requires position % 8 == 0
    ensures AlignUp(position, 8) == position
  {
    var r := AlignUp(position, 8);
    assert r - position < 8 && (r - position) % 8 == 0;
  }

  /**
   * `decodeSuperFrame`: frames 0, 1, ... of the superframe, each decoded with its index and its
   * PCM written into its window of the outputs, until all `FramesPerSuperframe` frames are done
   * or one fails, as `SuperframeDecoded` says from the reader's position and the blocks' values.
   * The outputs then hold, slot by slot, what `SuperframeSample` gives for the frames decoded
   * over their previous contents.
   */
  method DecodeSuperFrame(reader: BitReader, frame: Frame, pcmOut: seq<array<uint16>>, t: CodecTables, exp2: real -> real)
    returns (r: Outcome<DecodeError>, ghost decoded: seq<seq<seq<real>>>, ghost run: SuperframeRun)
    requires reader.Valid() && ScaleFactorTables(t) && SpectrumTables(t) && B.BexLayout(t)
    requires Ready(frame) && SamplesFit(frame.Blocks, frame.Config.FrameSamples) && frame.Config.FrameSamples > 0
    requires OutputsFit(pcmOut, |FrameChannels(frame.Blocks)|, frame.Config.FramesPerSuperframe * frame.Config.FrameSamples)
    modifies reader, frame, FrameObjects(frame), FrameBuffers(frame), Outputs(pcmOut)
    ensures reader.Valid() && unchanged(reader`buffer, reader`bits)
    ensures Ready(frame)
    ensures |decoded| <= frame.Config.FramesPerSuperframe
    ensures r.Pass? <==> |decoded| == frame.Config.FramesPerSuperframe
    ensures r.Pass? && |decoded| > 0 ==> reader.position % 8 == 0 && frame.FrameIndex == |decoded| - 1
    ensures Spans(run, old(FrameView(frame)), FrameView(frame))
    ensures Decoded(decoded, |FrameChannels(frame.Blocks)|, frame.Config.FrameSamples)
    ensures forall c, s :: 0 <= c < |pcmOut| && 0 <= s < pcmOut[c].Length ==>
      pcmOut[c][s] == SuperframeSample(old(pcmOut[c][s]), decoded, |FrameChannels(frame.Blocks)|, frame.Config.FrameSamples, c, s)
    ensures SuperframeDecoded(BlockTypes(frame), frame.Config, t, exp2, reader.bits, old(reader.position),
      run.starts, run.views, run.traces, r, decoded)
  {
    hide SuperframeDecoded, Spans, FrameView, Ready, FrameStepped, FrameDecoded, FrameReady, SamplesFit, OutputsFit;
    ghost var channels := |FrameChannels(frame.Blocks)|;
    ghost var previous := Snapshot(pcmOut);
    WrittenStart(pcmOut, previous, channels, frame.Config.FrameSamples);
    r, decoded, run := FrameLoop(reader, frame, pcmOut, t, exp2, previous);
    forall c, s | 0 <= c < |pcmOut| && 0 <= s < pcmOut[c].Length
      ensures pcmOut[c][s] == SuperframeSample(old(pcmOut[c][s]), decoded, channels, frame.Config.FrameSamples, c, s)
    {
      assert previous[c][s] == old(pcmOut[c][s]);
    }
  }

  /**
   * The loop of `decodeSuperFrame`: one pass per frame until all `FramesPerSuperframe` are done
   * or one fails, the frames read as `SuperframeDecoded` says and the outputs holding at every
   * step the frames decoded over `previous`.
   */
  method FrameLoop(reader: BitReader, frame: Frame, pcmOut: seq<array<uint16>>, t: CodecTables, exp2: real -> real,
                   ghost previous: seq<seq<uint16>>)
    returns (r: Outcome<DecodeError>, ghost decoded: seq<seq<seq<real>>>, ghost run: SuperframeRun)
    requires reader.Valid() && ScaleFactorTables(t) && SpectrumTables(t) && B.BexLayout(t)
    requires Ready(frame) && SamplesFit(frame.Blocks, frame.Config.FrameSamples) && frame.Config.FrameSamples > 0
    requires OutputsFit(pcmOut, |FrameChannels(frame.Blocks)|, frame.Config.FramesPerSuperframe * frame.Config.FrameSamples)
    requires Written(pcmOut, previous, [], |FrameChannels(frame.Blocks)|, frame.Config.FrameSamples)
    modifies reader, frame, FrameObjects(frame), FrameBuffers(frame), Outputs(pcmOut)
    ensures reader.Valid() && unchanged(reader`buffer, reader`bits)
    ensures Ready(frame)
    ensures |decoded| <= frame.Config.FramesPerSuperframe
    ensures r.Pass? <==> |decoded| == frame.Config.FramesPerSuperframe
    ensures r.Pass? && |decoded| > 0 ==> reader.position % 8 == 0 && frame.FrameIndex == |decoded| - 1
    ensures Spans(run, old(FrameView(frame)), FrameView(frame))
    ensures Decoded(decoded, |FrameChannels(frame.Blocks)|, frame.Config.FrameSamples)
    ensures Written(pcmOut, previous, decoded, |FrameChannels(frame.Blocks)|, frame.Config.FrameSamples)
    ensures SuperframeDecoded(BlockTypes(frame), frame.Config, t, exp2, reader.bits, old(reader.position),
      run.starts, run.views, run.traces, r, decoded)
  {
    hide *;
    ghost var channels := |FrameChannels(frame.Blocks)|;
    ghost var buffer, bits, start := reader.buffer, reader.bits, reader.position;
    var frames, frameSamples := frame.Config.FramesPerSuperframe, frame.Config.FrameSamples;
    ghost var starts, views, traces := [], [FrameView(frame)], [];
    decoded := [];
    r := Pass;
    SuperframeStart(BlockTypes(frame), frame.Config, t, exp2, bits, start, FrameView(frame));
    NothingDecoded(channels, frameSamples);
    for i := 0 to frames
      invariant reader.Valid() && reader.buffer == buffer && reader.bits == bits
      invariant Ready(frame) && r.Pass? && |decoded| == i
      invariant Decoded(decoded, channels, frameSamples)
      invariant Written(pcmOut, previous, decoded, channels, frameSamples)
      invariant i > 0 ==> reader.position % 8 == 0 && frame.FrameIndex == i - 1
      invariant |starts| == |traces| == i && |views| == i + 1 && views[0] == old(FrameView(frame)) && views[i] == FrameView(frame)
      invariant SuperframeDecoded(BlockTypes(frame), frame.Config, t, exp2, bits, start, starts, views, traces, Pass, decoded)
      invariant reader.position == if i == 0 then start else NextStart(starts[i - 1], traces[i - 1])
    {
      ghost var position := reader.position;
      ghost var tr;
      ghost var before := decoded;
      r, decoded, tr := FramePass(reader, frame, pcmOut, i, t, exp2, previous, decoded);
      ghost var samples := if r.Pass? then decoded[i] else [];
      SuperframeExtends(BlockTypes(frame), frame.Config, t, exp2, bits, start, starts, views, traces, before,
        position, tr, r, FrameView(frame), samples);
      starts, views, traces := starts + [position], views + [FrameView(frame)], traces + [tr];
      if r.Fail? {
        break;
      }
      assert decoded == before + [samples];
    }
    run := SuperframeRun(starts, views, traces);
    SpansOf(run, old(FrameView(frame)), FrameView(frame));
  }

  /** No frame decoded is a well-shaped list of frames. */
  lemma NothingDecoded(channels: nat, frameSamples: nat)
    ensures Decoded([], channels, frameSamples)
  {
  }

  /** `Spans`, from what it holds. */
  lemma SpansOf(run: SuperframeRun, first: seq<BlockView>, last: seq<BlockView>)
    requires 0 < |run.views| && run.views[0] == first && run.views[|run.views| - 1] == last
    ensures Spans(run, first, last)
  {
  }

  /** Before any frame, nothing of the superframe has been read. */
  lemma SuperframeStart(types: seq<int>, config: Atrac9Config, t: CodecTables, exp2: real -> real, bits: seq<bool>,
                        start: nat, view: seq<BlockView>)
    ensures SuperframeDecoded(types, config, t, exp2, bits, start, [], [view], [], Pass, [])
  {
  }

  /** Before any frame, the outputs hold what they held. */
  lemma WrittenStart(pcmOut: seq<array<uint16>>, previous: seq<seq<uint16>>, channels: nat, frameSamples: nat)
    requires frameSamples > 0
    requires |previous| == |pcmOut| && forall c :: 0 <= c < |pcmOut| ==> previous[c] == pcmOut[c][..]
    ensures Decoded([], channels, frameSamples) && Written(pcmOut, previous, [], channels, frameSamples)
  {
  }
}
