/**
 * The values the RIFF walk produces: a sub-chunk's header, the fields its registered reader
 * took from it, and the bytes left over up to its end.
 */
module RiffChunks {
  import opened JsInt
  import opened Wrappers

  /**
   * What a sub-chunk reader made of the chunk, one alternative per chunk class the ATRAC9
   * reader can meet. The field layouts of `fmt `, `fact` and `smpl` are not part of this model:
   * a `WaveFormat` keeps only the ATRAC9 configuration bytes of an `At9WaveExtensible`
   * extension, a `WaveFact` or `At9Fact` only the counts the data chunk needs.
   */
  datatype ChunkFields =
    | Plain                                                // a bare `RiffSubChunk`
    | WaveFormat(At9ConfigData: Option<seq<byte>>)         // `WaveFmtChunk`, with the ATRAC9 extension's ConfigData if any
    | WaveFact(SampleCount: int)                           // `WaveFactChunk`
    | At9Fact(SampleCount: int, EncoderDelaySamples: int)  // `At9FactChunk`
    | At9Audio(FrameCount: int, AudioData: seq<seq<byte>>) // `At9DataChunk`
    | OtherFields                                          // a reader whose fields nothing here looks at

  /** A parsed sub-chunk: the id and size from its header, its fields, and the unread bytes of its body. */
  datatype SubChunk = SubChunk(SubChunkId: string, SubChunkSize: int, Fields: ChunkFields, Extra: seq<byte>)

  /** The characters of a four-byte chunk id; ids are ASCII, where UTF-8 decoding maps each byte to itself. */
  function IdString(bytes: seq<byte>): (s: string)
    ensures |s| == |bytes| && forall i :: 0 <= i < |bytes| ==> s[i] as int == bytes[i]
  {
    seq(|bytes|, i requires 0 <= i < |bytes| => bytes[i] as char)
  }
}
