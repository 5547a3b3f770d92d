/**
 * The state an ATRAC9 decoder keeps between calls, and what it throws.
 */
module DecoderStates {
  import opened JsInt
  import opened Wrappers
  import opened Config
  import opened RuntimeTables
  import opened DecodeState
  import opened BitStream
  import opened BitReading
  import opened PcmOutput
  import opened Decoding
  import opened Superframes

  /** What `initialize`, `decode` and `validateDecodeBuffers` throw. */
  datatype DecoderError =
    | NotInitialized          // decode before initialize
    | Uninitialized           // buffers checked without a configuration
    | MissingAtrac9Buffer     // no ATRAC9 buffer
    | MissingPcmBuffer        // no list of outputs
    | Atrac9BufferTooSmall    // fewer bytes than a superframe
    | PcmBufferTooSmall       // fewer outputs than channels, or an output missing or shorter than a superframe
    | BadConfig(config: ConfigError)
    | BadFrame(decode: DecodeError)

  /** The objects `Ready` reads: the blocks, their channels, their transforms and the transform tables. */
  ghost function ReadyReads(frame: Frame): set<object>
  {
    (set i | 0 <= i < |frame.Blocks| :: frame.Blocks[i] as object)
      + (set i, k | 0 <= i < |frame.Blocks| && 0 <= k < |frame.Blocks[i].Channels| :: frame.Blocks[i].Channels[k] as object)
      + (set i, k | 0 <= i < |frame.Blocks| && 0 <= k < |frame.Blocks[i].Channels| :: frame.Blocks[i].Channels[k].Mdct as object)
      + (set i, k | 0 <= i < |frame.Blocks| && 0 <= k < |frame.Blocks[i].Channels| :: frame.Blocks[i].Channels[k].Mdct.tables as object)
  }

  /** A decoder's frame and reader as `decode` needs them: the frame ready to decode, the reader valid. */
  ghost predicate DecoderReady(config: Atrac9Config, frame: Frame, reader: BitReader)
    reads frame.Blocks, ReadyReads(frame), reader
  {
    && frame.Config == config && config.FrameSamples > 0
    && config.SuperframeSamples == config.FramesPerSuperframe * config.FrameSamples
    && Ready(frame) && SamplesFit(frame.Blocks, config.FrameSamples)
    && |FrameChannels(frame.Blocks)| == config.ChannelCount
    && reader.Valid()
  }

  /**
   * What decoding a superframe leaves in the reader and the frame: the reader over the bytes
   * given, every frame of the superframe decoded exactly when the outcome passes, and on success
   * the reader on a byte boundary with the frame index at the last frame decoded.
   */
  ghost predicate SuperframeRead(config: Atrac9Config, frame: Frame, reader: BitReader, atrac9: Option<seq<byte>>,
                                 r: Outcome<DecoderError>, decoded: seq<seq<seq<real>>>)
    reads frame, reader
  {
    && atrac9.Some? && reader.buffer == atrac9 && reader.bits == StreamBits(atrac9.value)
    && |decoded| <= config.FramesPerSuperframe
    && (r.Pass? <==> |decoded| == config.FramesPerSuperframe)
    && (r.Fail? ==> r.error.BadFrame?)
    && (r.Pass? && |decoded| > 0 ==> reader.position % 8 == 0 && frame.FrameIndex == |decoded| - 1)
    && Decoded(decoded, config.ChannelCount, config.FrameSamples)
  }

  /**
   * The superframe `decode` wrote is the one its bytes give: the frames read one after another
   * from the first bit, each as `SuperframeDecoded` says, and a throw is the failing frame's error.
   */
  ghost predicate ReadFromBytes(config: Atrac9Config, frame: Frame, atrac9: Option<seq<byte>>, t: CodecTables,
                                exp2: real -> real, r: Outcome<DecoderError>, decoded: seq<seq<seq<real>>>, run: SuperframeRun)
  {
    && atrac9.Some? && (r.Fail? ==> r.error.BadFrame?)
    && SuperframeDecoded(BlockTypes(frame), config, t, exp2, StreamBits(atrac9.value), 0, run.starts, run.views, run.traces,
         if r.Pass? then Pass else Fail(r.error.decode), decoded)
  }

  /**
   * All `decode` promises once the buffers fit, on values: the reader and frame as
   * `SuperframeRead` leaves them, the run from the block values `first` to `last`, the output
   * contents `out` written over `previous` by the frames decoded, and those frames the ones the
   * bytes give.
   */
  ghost predicate DecodedInto(config: Atrac9Config, frame: Frame, reader: BitReader, atrac9: Option<seq<byte>>,
                              t: CodecTables, exp2: real -> real, r: Outcome<DecoderError>, decoded: seq<seq<seq<real>>>,
                              run: SuperframeRun, first: seq<BlockView>, last: seq<BlockView>,
                              previous: seq<seq<uint16>>, out: seq<seq<uint16>>)
    reads frame, reader
  {
    && SuperframeRead(config, frame, reader, atrac9, r, decoded)
    && Spans(run, first, last)
    && config.FrameSamples > 0
    && WrittenValues(out, previous, decoded, config.ChannelCount, config.FrameSamples)
    && ReadFromBytes(config, frame, atrac9, t, exp2, r, decoded, run)
  }

  /** The parts of `DecodedInto` make it up. */
  lemma DecodedIntoOf(config: Atrac9Config, frame: Frame, reader: BitReader, atrac9: Option<seq<byte>>,
                      t: CodecTables, exp2: real -> real, r: Outcome<DecoderError>, decoded: seq<seq<seq<real>>>,
                      run: SuperframeRun, first: seq<BlockView>, last: seq<BlockView>,
                      previous: seq<seq<uint16>>, out: seq<seq<uint16>>)
    requires SuperframeRead(config, frame, reader, atrac9, r, decoded) && Spans(run, first, last)
    requires config.FrameSamples > 0
    requires WrittenValues(out, previous, decoded, config.ChannelCount, config.FrameSamples)
    requires ReadFromBytes(config, frame, atrac9, t, exp2, r, decoded, run)
    ensures DecodedInto(config, frame, reader, atrac9, t, exp2, r, decoded, run, first, last, previous, out)
  {
  }
}
