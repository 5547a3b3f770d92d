/**
 * `At9DataChunk`: the `data` chunk of an AT9 file, read as whole superframes. The superframe
 * count comes from the `fact` chunk's sample counts and the superframe geometry of the
 * ATRAC9 configuration in the `fmt ` chunk.
 */
module At9Data {
  import opened JsInt
  import opened Wrappers
  import opened BinaryReading
  import opened Config
  import opened RiffChunks

  /** Why the data chunk cannot be read; each is an `Error` thrown by the constructor. */
  datatype DataError =
    | FormatMissing                   // no `fmt ` chunk with an ATRAC9 extension before the data
    | FactMissing                     // no ATRAC9 `fact` chunk before the data
    | ConfigRejected(ConfigError)     // the extension's ConfigData is not a valid configuration
    | DataTooShort                    // fewer bytes remain than the superframes need
    | DataUnreadable(error: ReadError) // `deInterleave` failed

  /**
   * `Math.ceil((sampleCount + encoderDelay) / superframeSamples)`: the fewest superframes that
   * hold the samples and the encoder delay.
   */
  function FrameCount(sampleCount: int, encoderDelay: int, superframeSamples: nat): (r: int)
    requires superframeSamples > 0
    ensures (r - 1) * superframeSamples < sampleCount + encoderDelay <= r * superframeSamples
  {
    var total := sampleCount + encoderDelay;
    var q := (-total) / superframeSamples;
    assert -total == q * superframeSamples + (-total) % superframeSamples;
    MulDist(-q, 1, superframeSamples);
    MulDist(q, 0, superframeSamples);
    -q
  }

  /** The ceiling is the only count with that property. */
  lemma FrameCountUnique(sampleCount: int, encoderDelay: int, superframeSamples: nat, n: int)
    requires superframeSamples > 0
    requires (n - 1) * superframeSamples < sampleCount + encoderDelay <= n * superframeSamples
    ensures n == FrameCount(sampleCount, encoderDelay, superframeSamples)
  {
    var r := FrameCount(sampleCount, encoderDelay, superframeSamples);
    MulDist(n, 1, superframeSamples);
    MulDist(r, 1, superframeSamples);
    if n < r {
      MulLeft(n, r - 1, superframeSamples);
    } else if r < n {
      MulLeft(r, n - 1, superframeSamples);
    }
  }

  /**
   * What the constructor looks up in the sub-chunks parsed so far: the configuration from the
   * `fmt ` chunk's ATRAC9 extension, then the sample count and encoder delay of an ATRAC9
   * `fact` chunk, in the order the constructor checks them.
   */
  function Lookup(chunks: map<string, SubChunk>): (r: Result<(Atrac9Config, int, int), DataError>)
    ensures r.Success? ==> ValidConfig(r.value.0)
    ensures r == Failure(FormatMissing) <==>
      !("fmt " in chunks && chunks["fmt "].Fields.WaveFormat? && chunks["fmt "].Fields.At9ConfigData.Some?)
  {
    if !("fmt " in chunks && chunks["fmt "].Fields.WaveFormat? && chunks["fmt "].Fields.At9ConfigData.Some?) then
      Failure(FormatMissing)
    else if !("fact" in chunks && chunks["fact"].Fields.At9Fact?) then
      Failure(FactMissing)
    else
      var config := ParseConfig(chunks["fmt "].Fields.At9ConfigData);
      if config.Failure? then Failure(ConfigRejected(config.error))
      else Success((config.value, chunks["fact"].Fields.SampleCount, chunks["fact"].Fields.EncoderDelaySamples))
  }

  /**
   * The `At9DataChunk` constructor after the sub-chunk header: `FrameCount` superframes of
   * `SuperframeBytes` each, read from the cursor. A count of 0 makes `deInterleave` divide by
   * zero and throw; a negative count gives no superframes and reads nothing. Otherwise
   * superframe i is the i-th run of `SuperframeBytes` bytes at the cursor, which advances
   * past all of them.
   */
  method ReadAt9Data(chunks: map<string, SubChunk>, reader: BinaryReader) returns (r: Result<ChunkFields, DataError>)
    modifies reader
    ensures Lookup(chunks).Failure? ==> r == Failure(Lookup(chunks).error) && reader.position == old(reader.position)
    ensures Lookup(chunks).Success? ==>
      var (config, sampleCount, encoderDelay) := Lookup(chunks).value;
      var frameCount := FrameCount(sampleCount, encoderDelay, config.SuperframeSamples);
      var size := frameCount * config.SuperframeBytes;
      && (size > |reader.data| - old(reader.position) ==> r == Failure(DataTooShort) && reader.position == old(reader.position))
      && (size <= |reader.data| - old(reader.position) ==>
            && (frameCount < 0 ==> r == Success(At9Audio(frameCount, [])) && reader.position == old(reader.position))
            && (frameCount == 0 ==> r == Failure(DataUnreadable(NotDivisible)) && reader.position == old(reader.position))
            && (frameCount > 0 ==> (r.Success? <==> old(reader.position) >= 0)))
      && (r.Success? && frameCount > 0 ==>
            && r.value.At9Audio? && r.value.FrameCount == frameCount && |r.value.AudioData| == frameCount
            && reader.position == old(reader.position) + size
            && forall i :: 0 <= i < frameCount ==>
                 Run(reader.data, old(reader.position), i, config.SuperframeBytes, r.value.AudioData[i]))
  {
    hide Lookup, FrameCount, Run;
    var lookup := Lookup(chunks);
    if lookup.Failure? {
      return Failure(lookup.error);
    }
    var (config, sampleCount, encoderDelay) := lookup.value;
    var frameCount := FrameCount(sampleCount, encoderDelay, config.SuperframeSamples);
    var dataSize := frameCount * config.SuperframeBytes;
    if dataSize > reader.Length() - reader.position {
      return Failure(DataTooShort);
    }
    if frameCount < 0 {
      return Success(At9Audio(frameCount, []));
    } else if frameCount == 0 {
      return Failure(DataUnreadable(NotDivisible));
    }
    var audio := ReadSuperframes(reader, frameCount, config.SuperframeBytes);
    if audio.Failure? {
      return Failure(audio.error);
    }
    r := Success(At9Audio(frameCount, audio.value));
  }

  /** `deInterleave(frameCount * superframeBytes, superframeBytes, frameCount)`: consecutive superframes. */
  method ReadSuperframes(reader: BinaryReader, frameCount: nat, superframeBytes: nat) returns (r: Result<seq<seq<byte>>, DataError>)
    requires frameCount > 0 && superframeBytes > 0
    requires frameCount * superframeBytes <= |reader.data| - reader.position
    modifies reader
    ensures r.Success? <==> old(reader.position) >= 0
    ensures r.Failure? ==> r.error.DataUnreadable?
    ensures r.Success? ==>
      && |r.value| == frameCount && reader.position == old(reader.position) + frameCount * superframeBytes
      && forall i :: 0 <= i < frameCount ==> Run(reader.data, old(reader.position), i, superframeBytes, r.value[i])
  {
    var dataSize := frameCount * superframeBytes;
    MulDist(frameCount, 0, superframeBytes);
    DivModUnique(dataSize, frameCount, superframeBytes, 0);
    ghost var start := reader.position;
    var audio := reader.DeInterleave(dataSize, superframeBytes, frameCount);
    if audio.Failure? {
      return Failure(DataUnreadable(audio.error));
    }
    SingleBlockSplit(reader.data, start, audio.value, frameCount, superframeBytes);
    r := Success(audio.value);
  }
}
