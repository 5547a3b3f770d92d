/**
 * `RiffParser`: the walk over the sub-chunks of a RIFF file. Each sub-chunk is handed to the
 * reader registered for its id, or read as a bare header; whatever the reader leaves of the
 * chunk's body is kept as `Extra`, and the walk moves on to the next even offset after the
 * chunk. The sub-chunk size is read as an unsigned 32-bit number here (see `ChunkSize`).
 */
module Riff {
  import opened JsInt
  import opened Wrappers
  import opened BinaryReading
  import opened RiffChunks
  import opened At9Data

  /** Why parsing stops; each is an `Error` the parser or a sub-chunk reader throws. */
  datatype RiffError =
    | NotRiff                       // the file does not start with "RIFF"
    | BadSubChunkId                 // a reader registered under an id that is not four characters
    | Unreadable(error: ReadError)  // a read ran past the file
    | FieldsRejected                // a field reader threw
    | DataRejected(reason: DataError) // the ATRAC9 data chunk threw

  /** `RiffChunk`: the file header, its id, the size of what follows the size field, and the form type. */
  datatype RiffHeader = RiffHeader(ChunkId: string, Size: int, Type: string)

  /**
   * A registered sub-chunk reader. Each starts by reading the sub-chunk header; a field reader
   * then reads its fields from the file, starting past the header, and ends where it says, or
   * throws (`None`). The ATRAC9 data chunk reader is `At9Data.ReadAt9Data`.
   */
  datatype ChunkReader =
    | FieldReader(read: (seq<byte>, int) -> Option<(ChunkFields, int)>)
    | At9DataReader

  /** The end of the sub-chunk whose header is at `at`: past the 8 header bytes and `size` body bytes. */
  function ChunkEnd(at: int, size: int): int
  {
    at + 8 + size
  }

  /** `endOffset + (endOffset & 1)`: the chunk's end rounded up to the 2-byte alignment of sub-chunks. */
  function NextOffset(at: int, size: int): (r: int)
    ensures r % 2 == 0 && ChunkEnd(at, size) <= r <= ChunkEnd(at, size) + 1
  {
    var endOffset := ChunkEnd(at, size);
    endOffset + endOffset % 2
  }

  /**
   * The size field of the sub-chunk header at `at`, as RIFF defines it: an unsigned 32-bit
   * little-endian count of body bytes.
   */
  function ChunkSize(data: seq<byte>, at: int): (r: nat)
    requires InBounds(data, at, 8)
    ensures r < TWO_32
  {
    Pow2Of32();
    Unsigned(data, at + 4, 4)
  }

  /** The size field as `RiffSubChunk` reads it, with `readInt32`: sizes of 2^31 and more come out negative. */
  function SignedChunkSize(data: seq<byte>, at: int): (r: int32)
    requires InBounds(data, at, 8)
    ensures r == ChunkSize(data, at) || r == ChunkSize(data, at) - TWO_32
  {
    ToInt32(ChunkSize(data, at))
  }

  /** With the unsigned size, every sub-chunk moves the walk on by at least its header. */
  lemma ChunkSizeAdvances(data: seq<byte>, at: int)
    requires InBounds(data, at, 8)
    ensures NextOffset(at, ChunkSize(data, at)) >= at + 8
  {
  }

  /**
   * A file whose first sub-chunk header, at offset 12, has the size bytes F8 FF FF FF: read
   * signed, the size is -8, the chunk "ends" where its header starts, and the walk is back at
   * offset 12 with the loop condition unchanged, so `ParseRiff` as written never returns.
   */
  lemma SignedSizeRewinds()
    ensures var data := RewindingFile();
      && InBounds(data, 12, 8) && SignedChunkSize(data, 12) == -8
      && NextOffset(12, SignedChunkSize(data, 12)) == 12
      && 12 + 8 < 8 + SignedRiffSize(data)
  {
    var data := RewindingFile();
    Unsigned32(data, 16);
    Unsigned32(data, 4);
  }

  /** "RIFF", size 24, "WAVE", then a sub-chunk "junk" whose size field is F8 FF FF FF, and 8 more bytes. */
  function RewindingFile(): (data: seq<byte>)
    ensures |data| == 28
  {
    [0x52, 0x49, 0x46, 0x46, 24, 0, 0, 0, 0x57, 0x41, 0x56, 0x45,
     0x6A, 0x75, 0x6E, 0x6B, 0xF8, 0xFF, 0xFF, 0xFF, 0, 0, 0, 0, 0, 0, 0, 0]
  }

  /** The RIFF size field, read with `readInt32`. */
  function SignedRiffSize(data: seq<byte>): int32
    requires |data| >= 8
  {
    ToInt32(Unsigned(data, 4, 4))
  }

  /** `bytes` are the bytes of `data` from `from` on. */
  ghost predicate BytesAt(data: seq<byte>, from: int, bytes: seq<byte>)
  {
    0 <= from && from + |bytes| <= |data| && bytes == data[from..from + |bytes|]
  }

  /** The sub-chunk at `at` has the header that `chunk` reports. */
  ghost predicate HeaderAt(data: seq<byte>, at: int, chunk: SubChunk)
  {
    && InBounds(data, at, 8)
    && chunk.SubChunkId == IdString(data[at..at + 4])
    && chunk.SubChunkSize == ChunkSize(data, at)
  }

  /**
   * The walk from `start` to `end`: chunk k was read from the header at `offsets[k]`, which
   * left room for a header before `end`, and the next header is at the aligned end of chunk k.
   */
  ghost predicate Walked(data: seq<byte>, end: int, chunks: seq<SubChunk>, offsets: seq<int>)
  {
    && |offsets| == |chunks| + 1
    && forall k :: 0 <= k < |chunks| ==> WalkStep(data, end, chunks[k], offsets[k], offsets[k + 1])
  }

  ghost predicate WalkStep(data: seq<byte>, end: int, chunk: SubChunk, at: int, next: int)
  {
    at + 8 < end && HeaderAt(data, at, chunk) && next == NextOffset(at, chunk.SubChunkSize)
  }

  /** The walk visits headers at strictly increasing offsets, each at least a header past the last. */
  lemma WalkAdvances(data: seq<byte>, end: int, chunks: seq<SubChunk>, offsets: seq<int>, j: nat, k: nat)
    requires Walked(data, end, chunks, offsets) && j < k < |offsets|
    ensures offsets[k] >= offsets[j] + 8 * (k - j)
  {
    var i := j;
    while i < k
      invariant j <= i <= k && offsets[i] >= offsets[j] + 8 * (i - j)
    {
      assert WalkStep(data, end, chunks[i], offsets[i], offsets[i + 1]);
      ChunkSizeAdvances(data, offsets[i]);
      i := i + 1;
    }
  }

  /** One more sub-chunk read at the end of a walk extends it, and its map. */
  lemma WalkExtends(data: seq<byte>, end: int, chunks: seq<SubChunk>, offsets: seq<int>, chunk: SubChunk, next: int)
    requires Walked(data, end, chunks, offsets)
    requires WalkStep(data, end, chunk, offsets[|offsets| - 1], next)
    ensures Walked(data, end, chunks + [chunk], offsets + [next])
    ensures Collect(chunks + [chunk]) == Collect(chunks)[chunk.SubChunkId := chunk]
  {
    assert (chunks + [chunk])[..|chunks|] == chunks;
  }

  /** `SubChunks` after the walk: each chunk stored under its id, a later one replacing an earlier one. */
  function Collect(chunks: seq<SubChunk>): map<string, SubChunk>
  {
    if |chunks| == 0 then map[] else Collect(chunks[..|chunks| - 1])[chunks[|chunks| - 1].SubChunkId := chunks[|chunks| - 1]]
  }

  /** The stored chunk for an id is the last chunk with that id, and every chunk's id is stored. */
  lemma {:induction false} CollectLatest(chunks: seq<SubChunk>, k: nat)
    requires k < |chunks|
    ensures chunks[k].SubChunkId in Collect(chunks)
    ensures (forall l :: k < l < |chunks| ==> chunks[l].SubChunkId != chunks[k].SubChunkId) ==>
      Collect(chunks)[chunks[k].SubChunkId] == chunks[k]
  {
    var n := |chunks|;
    if k < n - 1 {
      CollectLatest(chunks[..n - 1], k);
    }
  }

  /** Nothing is stored under an id no chunk has. */
  lemma {:induction false} CollectOnly(chunks: seq<SubChunk>, id: string)
    requires id in Collect(chunks)
    ensures exists k :: 0 <= k < |chunks| && chunks[k].SubChunkId == id && Collect(chunks)[id] == chunks[k]
  {
    var n := |chunks|;
    if chunks[n - 1].SubChunkId != id {
      CollectOnly(chunks[..n - 1], id);
      var k :| 0 <= k < n - 1 && chunks[..n - 1][k].SubChunkId == id && Collect(chunks[..n - 1])[id] == chunks[..n - 1][k];
      assert chunks[k].SubChunkId == id && Collect(chunks)[id] == chunks[k];
    }
  }

  /** `RiffChunk.Parse`: id, signed size and form type, then the check that the id is "RIFF". */
  method ParseRiffHeader(reader: BinaryReader) returns (r: Result<RiffHeader, RiffError>)
    modifies reader
    ensures !InBounds(reader.data, old(reader.position), 12) ==> r == Failure(Unreadable(OutOfRange))
    ensures InBounds(reader.data, old(reader.position), 12) ==>
      var at := old(reader.position);
      && reader.position == at + 12
      && (IdString(reader.data[at..at + 4]) == "RIFF" <==> r.Success?)
      && (r.Failure? ==> r.error == NotRiff)
      && (r.Success? ==> r.value == RiffHeader("RIFF", ToInt32(Unsigned(reader.data, at + 4, 4)), IdString(reader.data[at + 8..at + 12])))
  {
    var id := reader.ReadBytes(4);
    var size := reader.ReadInt32();
    var form := reader.ReadBytes(4);
    if id.Failure? || size.Failure? || form.Failure? {
      return Failure(Unreadable(OutOfRange));
    }
    if IdString(id.value) != "RIFF" {
      return Failure(NotRiff);
    }
    r := Success(RiffHeader("RIFF", size.value, IdString(form.value)));
  }

  /**
   * The sub-chunk header at the cursor: `ParseSubChunk` peeks at the id and steps back, then
   * the chunk's reader reads the id and the size. The cursor ends past the header.
   */
  method ReadSubChunkHeader(reader: BinaryReader) returns (r: Result<(string, nat), RiffError>)
    modifies reader
    ensures !InBounds(reader.data, old(reader.position), 8) ==> r.Failure? && r.error.Unreadable?
    ensures InBounds(reader.data, old(reader.position), 8) ==>
      var at := old(reader.position);
      && r == Success((IdString(reader.data[at..at + 4]), ChunkSize(reader.data, at)))
      && reader.position == at + 8
  {
    var peek := reader.ReadBytes(4);
    if peek.Failure? {
      return Failure(Unreadable(peek.error));
    }
    reader.position := reader.position - 4;
    r := ReadIdAndSize(reader);
  }

  /** The `RiffSubChunk` constructor: the four id bytes and the size field after them. */
  method ReadIdAndSize(reader: BinaryReader) returns (r: Result<(string, nat), RiffError>)
    modifies reader
    ensures !InBounds(reader.data, old(reader.position), 8) ==> r.Failure? && r.error.Unreadable?
    ensures InBounds(reader.data, old(reader.position), 8) ==>
      var at := old(reader.position);
      && r == Success((IdString(reader.data[at..at + 4]), ChunkSize(reader.data, at)))
      && reader.position == at + 8
  {
    var id := reader.ReadBytes(4);
    if id.Failure? {
      return Failure(Unreadable(id.error));
    }
    var size := reader.ReadUInt32();
    if size.Failure? {
      return Failure(Unreadable(size.error));
    }
    r := Success((IdString(id.value), size.value));
  }

  class RiffParser {
    /** The file header, once a file has been parsed. */
    var RiffChunk: Option<RiffHeader>
    /** Whether data chunks should be read; kept for the data chunk readers, which this model does not consult. */
    var ReadDataChunk: bool
    /** The sub-chunks read so far, by id. */
    var SubChunks: map<string, SubChunk>
    /** The reader for each known sub-chunk id. */
    var RegisteredSubChunks: map<string, ChunkReader>

    /**
     * `new RiffParser()`: nothing parsed, and the standard readers of `fmt `, `smpl`, `fact`
     * and `data` registered. Their field layouts are not part of this model, so they are passed in.
     */
    constructor(fmt: ChunkReader, smpl: ChunkReader, fact: ChunkReader, data: ChunkReader)
      ensures RiffChunk == None && ReadDataChunk && SubChunks == map[]
      ensures RegisteredSubChunks == map["fmt " := fmt, "smpl" := smpl, "fact" := fact, "data" := data]
    {
      RiffChunk := None;
      ReadDataChunk := true;
      SubChunks := map[];
      RegisteredSubChunks := map["fmt " := fmt, "smpl" := smpl, "fact" := fact, "data" := data];
    }

    /** `RegisterSubChunk(id, reader)`: only four-character ids; a new reader replaces an old one. */
    method RegisterSubChunk(id: string, subChunkReader: ChunkReader) returns (r: Outcome<RiffError>)
      modifies this
      ensures r.Pass? <==> |id| == 4
      ensures r.Fail? ==> r.error == BadSubChunkId && RegisteredSubChunks == old(RegisteredSubChunks)
      ensures r.Pass? ==> RegisteredSubChunks == old(RegisteredSubChunks)[id := subChunkReader]
      ensures RiffChunk == old(RiffChunk) && ReadDataChunk == old(ReadDataChunk) && SubChunks == old(SubChunks)
    {
      if |id| != 4 {
        return Fail(BadSubChunkId);
      }
      RegisteredSubChunks := RegisteredSubChunks[id := subChunkReader];
      r := Pass;
    }

    /** `GetSubChunk(id)`: the chunk stored under `id`, if any. */
    function GetSubChunk(id: string): (r: Option<SubChunk>)
      reads this
      ensures r.Some? <==> id in SubChunks
      ensures r.Some? ==> r.value == SubChunks[id]
    {
      if id in SubChunks then Some(SubChunks[id]) else None
    }

    /**
     * `ParseRiff(file)`: the file header, then the sub-chunks from offset 12 for as long as a
     * whole header fits before the end the header's size gives (counted from offset 8). The
     * sub-chunks read are stored by id; the ghost results record the walk. A failure in the
     * header leaves the parser as it was; a failure in a sub-chunk keeps what was stored before it.
     */
    method ParseRiff(file: seq<byte>) returns (r: Outcome<RiffError>, ghost chunks: seq<SubChunk>, ghost offsets: seq<int>)
      modifies this
      ensures RegisteredSubChunks == old(RegisteredSubChunks) && ReadDataChunk == old(ReadDataChunk)
      ensures !InBounds(file, 0, 12) ==> r == Fail(Unreadable(OutOfRange))
      ensures InBounds(file, 0, 12) && IdString(file[..4]) != "RIFF" ==> r == Fail(NotRiff)
      ensures !InBounds(file, 0, 12) || IdString(file[..4]) != "RIFF" ==> RiffChunk == old(RiffChunk) && SubChunks == old(SubChunks)
      ensures InBounds(file, 0, 12) && IdString(file[..4]) == "RIFF" ==>
        var end := 8 + SignedRiffSize(file);
        && RiffChunk == Some(RiffHeader("RIFF", SignedRiffSize(file), IdString(file[8..12])))
        && Walked(file, end, chunks, offsets) && offsets[0] == 12 && SubChunks == Collect(chunks)
        && (r.Pass? ==> offsets[|offsets| - 1] + 8 >= end)
    {
      chunks, offsets := [], [];
      var reader := new BinaryReader(file);
      var header := ParseRiffHeader(reader);
      if header.Failure? {
        if InBounds(file, 0, 12) {
          assert file[..4] == file[0..0 + 4];
        }
        return Fail(header.error), chunks, offsets;
      }
      RiffChunk := Some(header.value);
      SubChunks := map[];
      var startOffset := reader.position - 4;
      var endOffset := startOffset + header.value.Size;
      assert file[..4] == file[0..0 + 4];
      r, chunks, offsets := WalkSubChunks(reader, endOffset);
    }

    /** The loop of `ParseRiff`: sub-chunks while a header fits before `end`. */
    method WalkSubChunks(reader: BinaryReader, end: int) returns (r: Outcome<RiffError>, ghost chunks: seq<SubChunk>, ghost offsets: seq<int>)
      requires SubChunks == map[]
      modifies this, reader
      ensures RegisteredSubChunks == old(RegisteredSubChunks) && ReadDataChunk == old(ReadDataChunk) && RiffChunk == old(RiffChunk)
      ensures Walked(reader.data, end, chunks, offsets) && offsets[0] == old(reader.position) && SubChunks == Collect(chunks)
      ensures r.Pass? ==> offsets[|offsets| - 1] + 8 >= end
    {
      chunks, offsets := [], [reader.position];
      while reader.position + 8 < end
        invariant RegisteredSubChunks == old(RegisteredSubChunks) && ReadDataChunk == old(ReadDataChunk) && RiffChunk == old(RiffChunk)
        invariant Walked(reader.data, end, chunks, offsets) && offsets[0] == old(reader.position)
        invariant offsets[|offsets| - 1] == reader.position && SubChunks == Collect(chunks)
        decreases end - reader.position
      {
        ghost var at := reader.position;
        var subChunk, fieldsEnd := ParseSubChunk(reader);
        if subChunk.Failure? {
          return Fail(subChunk.error), chunks, offsets;
        }
        ChunkSizeAdvances(reader.data, at);
        SubChunks := SubChunks[subChunk.value.SubChunkId := subChunk.value];
        WalkExtends(reader.data, end, chunks, offsets, subChunk.value, reader.position);
        chunks, offsets := chunks + [subChunk.value], offsets + [reader.position];
      }
      r := Pass;
    }

    /**
     * The fields of the sub-chunk with id `id`, whose header the cursor has just passed: read by
     * the registered reader, or none for an unregistered id.
     */
    method ReadFields(reader: BinaryReader, id: string) returns (r: Result<ChunkFields, RiffError>)
      modifies reader
      ensures id !in RegisteredSubChunks ==> r == Success(Plain) && reader.position == old(reader.position)
      ensures id in RegisteredSubChunks && RegisteredSubChunks[id].FieldReader? ==>
        var read := RegisteredSubChunks[id].read(reader.data, old(reader.position));
        && (read.None? ==> r == Failure(FieldsRejected))
        && (read.Some? ==> r == Success(read.value.0) && reader.position == read.value.1)
      ensures id in RegisteredSubChunks && RegisteredSubChunks[id].At9DataReader? && r.Success? ==>
        && Lookup(SubChunks).Success? && r.value.At9Audio?
        && r.value.FrameCount == FrameCount(Lookup(SubChunks).value.1, Lookup(SubChunks).value.2, Lookup(SubChunks).value.0.SuperframeSamples)
    {
      if id !in RegisteredSubChunks {
        return Success(Plain);
      }
      match RegisteredSubChunks[id]
      case FieldReader(read) =>
        var fields := read(reader.data, reader.position);
        if fields.None? {
          return Failure(FieldsRejected);
        }
        reader.position := fields.value.1;
        r := Success(fields.value.0);
      case At9DataReader =>
        var audio := ReadAt9Data(SubChunks, reader);
        if audio.Failure? {
          return Failure(DataRejected(audio.error));
        }
        r := Success(audio.value);
    }

    /**
     * `ParseSubChunk(reader)`: the sub-chunk whose header is at the cursor. Its reader reads what
     * it reads; the bytes from there to the chunk's end become `Extra`, and the cursor moves to
     * the aligned end of the chunk.
     */
    method ParseSubChunk(reader: BinaryReader) returns (r: Result<SubChunk, RiffError>, ghost fieldsEnd: int)
      modifies reader
      ensures !InBounds(reader.data, old(reader.position), 8) ==> r.Failure?
      ensures r.Success? ==>
        var at := old(reader.position);
        var chunkEnd := ChunkEnd(at, r.value.SubChunkSize);
        && HeaderAt(reader.data, at, r.value)
        && reader.position == NextOffset(at, r.value.SubChunkSize)
        && BytesAt(reader.data, fieldsEnd, r.value.Extra)
        && |r.value.Extra| == if chunkEnd > fieldsEnd then chunkEnd - fieldsEnd else 0
      ensures r.Success? && r.value.SubChunkId !in RegisteredSubChunks ==>
        && r.value.Fields == Plain && fieldsEnd == old(reader.position) + 8
        && BytesAt(reader.data, old(reader.position) + 8, r.value.Extra) && |r.value.Extra| == r.value.SubChunkSize
    {
      fieldsEnd := 0;
      var header := ReadSubChunkHeader(reader);
      if header.Failure? {
        return Failure(header.error), fieldsEnd;
      }
      var (id, size) := header.value;
      var start := reader.position;
      var fields := ReadFields(reader, id);
      if fields.Failure? {
        return Failure(fields.error), fieldsEnd;
      }
      fieldsEnd := reader.position;
      r, fieldsEnd := Finish(reader, id, size, start, fields.value);
    }
  }

  /** The tail of `ParseSubChunk`: the leftover bytes of the chunk, then the cursor to its aligned end. */
  method Finish(reader: BinaryReader, id: string, size: nat, start: int, fields: ChunkFields)
    returns (r: Result<SubChunk, RiffError>, ghost fieldsEnd: int)
    modifies reader
    ensures fieldsEnd == old(reader.position)
    ensures r.Success? ==>
      var chunkEnd := start + size;
      && r.value == SubChunk(id, size, fields, r.value.Extra)
      && reader.position == chunkEnd + chunkEnd % 2
      && BytesAt(reader.data, fieldsEnd, r.value.Extra)
      && |r.value.Extra| == if chunkEnd > fieldsEnd then chunkEnd - fieldsEnd else 0
  {
    fieldsEnd := reader.position;
    var endOffset := start + size;
    var remainingBytes := if endOffset - reader.position > 0 then endOffset - reader.position else 0;
    var extra := reader.ReadBytes(remainingBytes);
    if extra.Failure? {
      return Failure(Unreadable(extra.error)), fieldsEnd;
    }
    reader.position := endOffset + endOffset % 2;
    r := Success(SubChunk(id, size, fields, extra.value));
  }
}
