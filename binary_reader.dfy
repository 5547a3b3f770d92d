/**
 * `BinaryReader`: a byte cursor over a file for the container code. Multi-byte reads are
 * little-endian; every read advances the cursor by the bytes it read, and a read outside the
 * buffer fails as `DataView` and `Uint8Array` views do.
 */
module BinaryReading {
  import opened JsInt
  import opened Wrappers

  /** The errors the reader raises: a view outside the buffer, a length `deInterleave` cannot split. */
  datatype ReadError = OutOfRange | NotDivisible

  /** The n bytes from `pos` lie inside the buffer. */
  predicate InBounds(data: seq<byte>, pos: int, n: nat)
  {
    0 <= pos && pos + n <= |data|
  }

  /** The unsigned number stored little-endian in `bytes`: the first byte is the least significant. */
  function LittleEndian(bytes: seq<byte>): (r: nat)
    ensures r < Pow2(8 * |bytes|)
  {
    if |bytes| == 0 then 0
    else
      var rest := LittleEndian(bytes[1..]);
      Pow2Add(8, 8 * (|bytes| - 1));
      assert Pow2(8) == 256 by { Pow2Byte(); }
      bytes[0] + 256 * rest
  }

  lemma Pow2Byte()
    ensures Pow2(8) == 256
  {
  }

  /** The `n` bytes that store `v` little-endian. */
  function LittleEndianBytes(v: nat, n: nat): (r: seq<byte>)
    ensures |r| == n
  {
    if n == 0 then [] else [v % 256] + LittleEndianBytes(v / 256, n - 1)
  }

  /** Writing a number into n bytes and reading it back gives the number, when it fits. */
  lemma {:induction false} LittleEndianRoundTrip(v: nat, n: nat)
    requires v < Pow2(8 * n)
    ensures LittleEndian(LittleEndianBytes(v, n)) == v
  {
    if n > 0 {
      Pow2Add(8, 8 * (n - 1));
      Pow2Byte();
      assert v / 256 < Pow2(8 * (n - 1));
      LittleEndianRoundTrip(v / 256, n - 1);
      assert LittleEndianBytes(v, n)[1..] == LittleEndianBytes(v / 256, n - 1);
    }
  }

  /** Reading n bytes as a number and writing it back gives the bytes. */
  lemma {:induction false} LittleEndianBytesRoundTrip(bytes: seq<byte>)
    ensures LittleEndianBytes(LittleEndian(bytes), |bytes|) == bytes
  {
    if |bytes| > 0 {
      LittleEndianBytesRoundTrip(bytes[1..]);
      var v := LittleEndian(bytes);
      assert v % 256 == bytes[0] && v / 256 == LittleEndian(bytes[1..]);
    }
  }

  /** A number of `bits` bits in two's complement: the top half of the range stands for negatives. */
  function Signed(v: nat, bits: nat): (r: int)
    requires bits > 0 && v < Pow2(bits)
    ensures -(Pow2(bits - 1) as int) <= r < Pow2(bits - 1)
    ensures r == v || r == v - Pow2(bits)
  {
    var half := Pow2(bits - 1);
    assert Pow2(bits) == 2 * half;
    if v < half then v else v - Pow2(bits)
  }

  /** The little-endian number of the n bytes at `pos`. */
  function Unsigned(data: seq<byte>, pos: int, n: nat): (r: nat)
    requires InBounds(data, pos, n)
    ensures r < Pow2(8 * n)
  {
    LittleEndian(data[pos..pos + n])
  }

  /** Two bytes at `pos`, read as `getUint16(pos, true)` reads them. */
  lemma Unsigned16(data: seq<byte>, pos: int)
    requires InBounds(data, pos, 2)
    ensures Unsigned(data, pos, 2) == data[pos] as int + 256 * (data[pos + 1] as int)
  {
    var b := data[pos..pos + 2];
    assert b[1..][1..] == [];
    assert LittleEndian(b[1..]) == b[1] as int + 256 * LittleEndian(b[1..][1..]);
  }

  /** Four bytes at `pos`, read as `getUint32(pos, true)` reads them. */
  lemma Unsigned32(data: seq<byte>, pos: int)
    requires InBounds(data, pos, 4)
    ensures Unsigned(data, pos, 4) == data[pos] as int + 256 * (data[pos + 1] as int) + 65536 * (data[pos + 2] as int) + 16777216 * (data[pos + 3] as int)
  {
    var b := data[pos..pos + 4];
    assert b[1..][1..][1..][1..] == [];
    assert LittleEndian(b[1..][1..][1..]) == b[3] as int;
    assert LittleEndian(b[1..][1..]) == b[2] as int + 256 * (b[3] as int);
    assert LittleEndian(b[1..]) == b[1] as int + 256 * (b[2] as int) + 65536 * (b[3] as int);
  }

  class BinaryReader {
    /** The file the reader was made over. */
    const data: seq<byte>
    /** The offset of the next byte to read. */
    var position: int

    /** `new BinaryReader(arrayBuffer)`: a cursor at the start of the buffer. */
    constructor(arrayBuffer: seq<byte>)
      ensures data == arrayBuffer && position == 0
    {
      data := arrayBuffer;
      position := 0;
    }

    /** `length`: the byte length of the buffer. */
    function Length(): (r: nat)
      ensures r == |data|
    {
      |data|
    }

    /**
     * The shared shape of the fixed-width reads: the `n` bytes at the cursor as an unsigned
     * number, the cursor advanced past them; out of range, a failure and the cursor kept.
     */
    method ReadUnsigned(n: nat) returns (r: Result<nat, ReadError>)
      modifies this
      ensures InBounds(data, old(position), n) ==>
        r == Success(Unsigned(data, old(position), n)) && position == old(position) + n
      ensures !InBounds(data, old(position), n) ==> r == Failure(OutOfRange) && position == old(position)
    {
      if !InBounds(data, position, n) {
        return Failure(OutOfRange);
      }
      r := Success(LittleEndian(data[position..position + n]));
      position := position + n;
    }

    /** `readUInt8`: the byte at the cursor, which advances by one. */
    method ReadUInt8() returns (r: Result<nat, ReadError>)
      modifies this
      ensures InBounds(data, old(position), 1) ==> r == Success(data[old(position)]) && position == old(position) + 1
      ensures !InBounds(data, old(position), 1) ==> r == Failure(OutOfRange) && position == old(position)
    {
      r := ReadUnsigned(1);
      if r.Success? {
        assert data[old(position)..old(position) + 1][1..] == [];
      }
    }

    /** `readUInt16`: two bytes little-endian, the cursor advanced by two. */
    method ReadUInt16() returns (r: Result<nat, ReadError>)
      modifies this
      ensures InBounds(data, old(position), 2) ==>
        r == Success(data[old(position)] as int + 256 * (data[old(position) + 1] as int)) && position == old(position) + 2
      ensures !InBounds(data, old(position), 2) ==> r == Failure(OutOfRange) && position == old(position)
    {
      if InBounds(data, position, 2) {
        Unsigned16(data, position);
      }
      r := ReadUnsigned(2);
    }

    /** `readInt16`: two bytes little-endian in two's complement, the cursor advanced by two. */
    method ReadInt16() returns (r: Result<int, ReadError>)
      modifies this
      ensures InBounds(data, old(position), 2) ==>
        r.Success? && -0x8000 <= r.value < 0x8000 && position == old(position) + 2
        && ToUint16(r.value) == data[old(position)] as int + 256 * (data[old(position) + 1] as int)
      ensures !InBounds(data, old(position), 2) ==> r == Failure(OutOfRange) && position == old(position)
    {
      var u := ReadUInt16();
      if u.Failure? {
        return Failure(OutOfRange);
      }
      Pow2Add(8, 8);
      Pow2Byte();
      r := Success(Signed(u.value, 16));
    }

    /** `readUInt32`: four bytes little-endian, the cursor advanced by four. */
    method ReadUInt32() returns (r: Result<nat, ReadError>)
      modifies this
      ensures InBounds(data, old(position), 4) ==>
        r == Success(Unsigned(data, old(position), 4)) && r.value < TWO_32 && position == old(position) + 4
      ensures !InBounds(data, old(position), 4) ==> r == Failure(OutOfRange) && position == old(position)
    {
      Pow2Of32();
      r := ReadUnsigned(4);
    }

    /** `readInt32`: four bytes little-endian in two's complement, the cursor advanced by four. */
    method ReadInt32() returns (r: Result<int32, ReadError>)
      modifies this
      ensures InBounds(data, old(position), 4) ==>
        r.Success? && position == old(position) + 4 && ToUint32(r.value) == Unsigned(data, old(position), 4)
      ensures !InBounds(data, old(position), 4) ==> r == Failure(OutOfRange) && position == old(position)
    {
      var u := ReadUInt32();
      if u.Failure? {
        return Failure(OutOfRange);
      }
      r := Success(ToInt32(u.value));
    }

    /** `readBytes(length)`: the `length` bytes at the cursor, which advances past them. */
    method ReadBytes(length: int) returns (r: Result<seq<byte>, ReadError>)
      modifies this
      ensures length >= 0 && InBounds(data, old(position), length) ==>
        r == Success(data[old(position)..old(position) + length]) && position == old(position) + length
      ensures !(length >= 0 && InBounds(data, old(position), length)) ==>
        r == Failure(OutOfRange) && position == old(position)
    {
      if length < 0 || !InBounds(data, position, length) {
        return Failure(OutOfRange);
      }
      r := Success(data[position..position + length]);
      position := position + length;
    }

    /**
     * `deInterleave(length, interleaveSize, outputCount)` with the default output size: the
     * `length` bytes at the cursor are dealt to `outputCount` outputs, one interleave block to
     * each in turn; output o receives byte k of its share from `DealtOffset(k, o, ...)` past the
     * cursor, which ends `length` bytes on. It fails when `length` does not split evenly, or
     * when the bytes run past the buffer.
     */
    method DeInterleave(length: nat, interleaveSize: nat, outputCount: nat) returns (r: Result<seq<seq<byte>>, ReadError>)
      requires interleaveSize > 0
      modifies this
      ensures (outputCount == 0 || length % outputCount != 0) ==> r == Failure(NotDivisible) && position == old(position)
      ensures outputCount > 0 && length % outputCount == 0 ==>
        (r.Success? <==> length == 0 || InBounds(data, old(position), length))
      ensures r.Success? ==>
        && outputCount > 0 && position == old(position) + length
        && Dealt(data, old(position), r.value, outputCount, interleaveSize, length / outputCount)
    {
      if outputCount == 0 || length % outputCount != 0 {
        return Failure(NotDivisible);
      }
      var inputSize := length / outputCount;
      DivModUnique(length, outputCount, inputSize, 0);
      var inBlockCount := (inputSize + interleaveSize - 1) / interleaveSize;
      ghost var start := position;
      var outputs: seq<seq<byte>> := seq(outputCount, _ => seq(inputSize, _ => 0 as byte));
      var b := 0;
      while b < inBlockCount
        invariant b <= inBlockCount && position == start + Min(b * interleaveSize, inputSize) * outputCount
        invariant b == 0 || (0 <= start && position <= |data|)
        invariant DealtUpTo(data, start, outputs, outputCount, interleaveSize, inputSize, 0,
                            Min(b * interleaveSize, inputSize), Min(b * interleaveSize, inputSize))
      {
        NextBlock(b, interleaveSize, inputSize, outputCount);
        var dealt := DealBlock(start, outputs, outputCount, interleaveSize, inputSize, b);
        if dealt.Failure? {
          return Failure(OutOfRange);
        }
        outputs := dealt.value;
        b := b + 1;
      }
      LastBlock(b, interleaveSize, inputSize);
      r := Success(outputs);
    }

    /**
     * One pass of the outer loop of `deInterleave`: interleave block b of every output read in
     * turn from the cursor. It fails when a read runs past the buffer, which then the whole
     * dealt range does.
     */
    method DealBlock(ghost start: int, outputs: seq<seq<byte>>, outputCount: nat, interleaveSize: nat, inputSize: nat, b: nat)
      returns (r: Result<seq<seq<byte>>, ReadError>)
      requires interleaveSize > 0 && b * interleaveSize < inputSize && outputCount > 0
      requires position == start + b * interleaveSize * outputCount
      requires b == 0 || (0 <= start && position <= |data|)
      requires DealtUpTo(data, start, outputs, outputCount, interleaveSize, inputSize, 0, b * interleaveSize, b * interleaveSize)
      modifies this
      ensures r.Failure? ==> !InBounds(data, start, inputSize * outputCount)
      ensures r.Success? ==>
        var hi := b * interleaveSize + BlockSize(b, interleaveSize, inputSize);
        && position == start + b * interleaveSize * outputCount + outputCount * BlockSize(b, interleaveSize, inputSize)
        && 0 <= start && position <= |data|
        && DealtUpTo(data, start, r.value, outputCount, interleaveSize, inputSize, 0, hi, hi)
    {
      var blockSize := BlockSize(b, interleaveSize, inputSize);
      ghost var base := b * interleaveSize * outputCount;
      var dealt := outputs;
      var o := 0;
      while o < outputCount
        invariant o <= outputCount && position == start + base + o * blockSize
        invariant (b == 0 && o == 0) || (0 <= start && position <= |data|)
        invariant DealtUpTo(data, start, dealt, outputCount, interleaveSize, inputSize, o, b * interleaveSize + blockSize, b * interleaveSize)
      {
        r := DealOne(start, dealt, outputCount, interleaveSize, inputSize, b, o);
        if r.Failure? {
          return;
        }
        dealt := r.value;
        o := o + 1;
      }
      DealtBlock(data, start, dealt, outputCount, interleaveSize, inputSize, b * interleaveSize + blockSize, b * interleaveSize);
      r := Success(dealt);
    }

    /** One pass of the inner loop of `deInterleave`: block b of output o read from the cursor. */
    method DealOne(ghost start: int, dealt: seq<seq<byte>>, outputCount: nat, interleaveSize: nat, inputSize: nat, b: nat, o: nat)
      returns (r: Result<seq<seq<byte>>, ReadError>)
      requires interleaveSize > 0 && b * interleaveSize < inputSize && o < outputCount
      requires position == start + b * interleaveSize * outputCount + o * BlockSize(b, interleaveSize, inputSize)
      requires (b == 0 && o == 0) || (0 <= start && position <= |data|)
      requires DealtUpTo(data, start, dealt, outputCount, interleaveSize, inputSize, o,
                         b * interleaveSize + BlockSize(b, interleaveSize, inputSize), b * interleaveSize)
      modifies this
      ensures r.Failure? ==> !InBounds(data, start, inputSize * outputCount)
      ensures r.Success? ==>
        && position == start + b * interleaveSize * outputCount + (o + 1) * BlockSize(b, interleaveSize, inputSize)
        && 0 <= start && position <= |data|
        && DealtUpTo(data, start, r.value, outputCount, interleaveSize, inputSize, o + 1,
                     b * interleaveSize + BlockSize(b, interleaveSize, inputSize), b * interleaveSize)
    {
      var blockSize := BlockSize(b, interleaveSize, inputSize);
      DealBound(b, o, interleaveSize, inputSize, outputCount);
      var chunk := ReadBytes(blockSize);
      if chunk.Failure? {
        ShortRead(data, start, position, blockSize, inputSize * outputCount);
        return Failure(OutOfRange);
      }
      DealChunk(data, start, dealt, outputCount, interleaveSize, inputSize, b, o, position - blockSize, chunk.value);
      MulDist(o, 1, blockSize);
      r := Success(dealt[o := Place(dealt[o], b * interleaveSize, chunk.value)]);
    }
  }

  /** The size of interleave block b of a share of `inputSize` bytes: full, except perhaps the last. */
  function BlockSize(b: nat, interleaveSize: nat, inputSize: nat): (r: nat)
    requires interleaveSize > 0 && b * interleaveSize < inputSize
    ensures 0 < r <= interleaveSize && b * interleaveSize + r <= inputSize
  {
    var inBlockCount := (inputSize + interleaveSize - 1) / interleaveSize;
    CeilDiv(inputSize, interleaveSize);
    if b == inBlockCount - 1 then inputSize - (inBlockCount - 1) * interleaveSize
    else
      assert b < inBlockCount - 1 by {
        if b >= inBlockCount { MulLeft(inBlockCount, b, interleaveSize); }
      }
      MulLeft(b + 1, inBlockCount - 1, interleaveSize);
      interleaveSize
  }

  /** `Math.ceil(x / d)` blocks of d cover x, and one block fewer does not. */
  lemma CeilDiv(x: nat, d: nat)
    requires d > 0
    ensures var n := (x + d - 1) / d; n >= 0 && x <= n * d && (x == 0 || (n > 0 && (n - 1) * d < x)) && (x == 0 ==> n == 0)
  {
    var n := (x + d - 1) / d;
    var m := (x + d - 1) % d;
    DivModUnique(x + d - 1, d, n, m);
    assert x + d - 1 == n * d + m;
    MulDist(n, -1, d);
    if x == 0 {
      DivModUnique(d - 1, d, 0, d - 1);
    }
  }

  /** Where byte k of output o's share sits, counted from where the dealing starts. */
  function DealtOffset(k: nat, o: nat, outputCount: nat, interleaveSize: nat, inputSize: nat): nat
    requires interleaveSize > 0 && k < inputSize
  {
    var b := k / interleaveSize;
    b * interleaveSize * outputCount + o * BlockSize(b, interleaveSize, inputSize) + k % interleaveSize
  }

  /** The outputs of `deInterleave`: `outputCount` shares of `inputSize` bytes, each byte from where `DealtOffset` says. */
  ghost predicate Dealt(data: seq<byte>, start: int, outputs: seq<seq<byte>>, outputCount: nat, interleaveSize: nat, inputSize: nat)
  {
    && interleaveSize > 0 && |outputs| == outputCount
    && (forall o :: 0 <= o < outputCount ==> |outputs[o]| == inputSize)
    && forall o, k :: 0 <= o < outputCount && 0 <= k < inputSize ==>
         0 <= start + DealtOffset(k, o, outputCount, interleaveSize, inputSize) < |data|
         && outputs[o][k] == data[start + DealtOffset(k, o, outputCount, interleaveSize, inputSize)]
  }

  /** Outputs before `o` are dealt up to byte `hi`, the others up to byte `lo`; the rest is still zero. */
  ghost predicate DealtUpTo(data: seq<byte>, start: int, outputs: seq<seq<byte>>, outputCount: nat, interleaveSize: nat, inputSize: nat, o: nat, hi: nat, lo: nat)
  {
    && interleaveSize > 0 && |outputs| == outputCount
    && (forall p :: 0 <= p < outputCount ==> |outputs[p]| == inputSize)
    && forall p, k :: 0 <= p < outputCount && 0 <= k < inputSize ==>
         if k < (if p < o then hi else lo)
         then 0 <= start + DealtOffset(k, p, outputCount, interleaveSize, inputSize) < |data|
           && outputs[p][k] == data[start + DealtOffset(k, p, outputCount, interleaveSize, inputSize)]
         else outputs[p][k] == 0
  }

  /** `bytes` written over `s` from index `at`. */
  function Place(s: seq<byte>, at: nat, bytes: seq<byte>): (r: seq<byte>)
    requires at + |bytes| <= |s|
    ensures |r| == |s|
    ensures forall k :: 0 <= k < |s| ==> r[k] == if at <= k < at + |bytes| then bytes[k - at] else s[k]
  {
    s[..at] + bytes + s[at + |bytes|..]
  }

  /** Block b of output o is read `b·interleaveSize·outputCount + o·blockSize` bytes on, and ends inside the data. */
  lemma DealBound(b: nat, o: nat, interleaveSize: nat, inputSize: nat, outputCount: nat)
    requires interleaveSize > 0 && b * interleaveSize < inputSize && o < outputCount
    ensures var bs := BlockSize(b, interleaveSize, inputSize);
      0 <= b * interleaveSize * outputCount + o * bs && b * interleaveSize * outputCount + o * bs + bs <= inputSize * outputCount
  {
    MulLeft(0, b, interleaveSize);
    RunBound(b * interleaveSize, BlockSize(b, interleaveSize, inputSize), o, outputCount, inputSize);
  }

  /** Slot o of a run of `outputCount` slots of `bs` bytes, from `bi · outputCount`, ends inside `inputSize · outputCount`. */
  lemma RunBound(bi: nat, bs: nat, o: nat, outputCount: nat, inputSize: nat)
    requires bi + bs <= inputSize && o < outputCount
    ensures 0 <= bi * outputCount + o * bs && bi * outputCount + o * bs + bs <= inputSize * outputCount
  {
    MulLeft(0, bi, outputCount);
    MulLeft(0, o, bs);
    MulDist(o, 1, bs);
    MulLeft(o + 1, outputCount, bs);
    MulDist(bi, bs, outputCount);
    MulLeft(bi + bs, inputSize, outputCount);
  }

  /** A read inside [start, start + total) that leaves the buffer means the whole range is not inside it. */
  lemma ShortRead(data: seq<byte>, start: int, at: int, n: nat, total: nat)
    requires start <= at && at + n <= start + total && !InBounds(data, at, n)
    ensures !InBounds(data, start, total)
  {
  }

  /** The byte k of output o of the next read lands where `DealtOffset` says. */
  lemma DealChunk(data: seq<byte>, start: int, outputs: seq<seq<byte>>, outputCount: nat, interleaveSize: nat, inputSize: nat,
                  b: nat, o: nat, at: int, chunk: seq<byte>)
    requires interleaveSize > 0 && b * interleaveSize < inputSize && o < outputCount
    requires at == start + b * interleaveSize * outputCount + o * BlockSize(b, interleaveSize, inputSize)
    requires 0 <= at && at + |chunk| <= |data| && chunk == data[at..at + |chunk|]
    requires |chunk| == BlockSize(b, interleaveSize, inputSize)
    requires DealtUpTo(data, start, outputs, outputCount, interleaveSize, inputSize, o, b * interleaveSize + |chunk|, b * interleaveSize)
    ensures DealtUpTo(data, start, outputs[o := Place(outputs[o], b * interleaveSize, chunk)], outputCount, interleaveSize, inputSize,
                      o + 1, b * interleaveSize + |chunk|, b * interleaveSize)
  {
    var bs := |chunk|;
    var outputs' := outputs[o := Place(outputs[o], b * interleaveSize, chunk)];
    forall k | b * interleaveSize <= k < b * interleaveSize + bs
      ensures DealtOffset(k, o, outputCount, interleaveSize, inputSize) == at - start + (k - b * interleaveSize)
    {
      BlockOf(k, b, interleaveSize);
    }
  }

  /** Index k of block b has k / interleaveSize == b and k % interleaveSize == k - b·interleaveSize. */
  lemma BlockOf(k: nat, b: nat, interleaveSize: nat)
    requires interleaveSize > 0 && b * interleaveSize <= k < b * interleaveSize + interleaveSize
    ensures k / interleaveSize == b && k % interleaveSize == k - b * interleaveSize
  {
    DivModUnique(k, interleaveSize, b, k - b * interleaveSize);
  }

  /**
   * Block b, when there is one, starts at byte b·interleaveSize of every share, and after it
   * `Min((b+1)·interleaveSize, inputSize)` bytes of each share are dealt.
   */
  lemma NextBlock(b: nat, interleaveSize: nat, inputSize: nat, outputCount: nat)
    requires interleaveSize > 0 && b < (inputSize + interleaveSize - 1) / interleaveSize
    ensures b * interleaveSize < inputSize && Min(b * interleaveSize, inputSize) == b * interleaveSize
    ensures b * interleaveSize + BlockSize(b, interleaveSize, inputSize) == Min((b + 1) * interleaveSize, inputSize)
    ensures b * interleaveSize * outputCount + outputCount * BlockSize(b, interleaveSize, inputSize)
      == Min((b + 1) * interleaveSize, inputSize) * outputCount
  {
    var n := (inputSize + interleaveSize - 1) / interleaveSize;
    CeilDiv(inputSize, interleaveSize);
    MulLeft(b, n - 1, interleaveSize);
    var bs := BlockSize(b, interleaveSize, inputSize);
    if b < n - 1 {
      MulLeft(b + 1, n - 1, interleaveSize);
    } else {
      MulLeft(n, b + 1, interleaveSize);
    }
    assert b * interleaveSize + bs == Min((b + 1) * interleaveSize, inputSize);
    MulDist(b * interleaveSize, bs, outputCount);
  }

  /** Once every block is read, the whole share is dealt. */
  lemma LastBlock(b: nat, interleaveSize: nat, inputSize: nat)
    requires interleaveSize > 0 && b == (inputSize + interleaveSize - 1) / interleaveSize
    ensures Min(b * interleaveSize, inputSize) == inputSize
  {
    DivModUnique(inputSize + interleaveSize - 1, interleaveSize, b, (inputSize + interleaveSize - 1) % interleaveSize);
  }

  /** Once every output received its block, all of them are dealt to the block's end. */
  lemma DealtBlock(data: seq<byte>, start: int, outputs: seq<seq<byte>>, outputCount: nat, interleaveSize: nat, inputSize: nat, hi: nat, lo: nat)
    requires DealtUpTo(data, start, outputs, outputCount, interleaveSize, inputSize, outputCount, hi, lo)
    ensures DealtUpTo(data, start, outputs, outputCount, interleaveSize, inputSize, 0, hi, hi)
  {
  }

  /** `bytes` is the i-th run of `size` bytes of the data from `start`. */
  ghost predicate Run(data: seq<byte>, start: int, i: nat, size: nat, bytes: seq<byte>)
  {
    0 <= start + i * size && start + (i + 1) * size <= |data| && bytes == data[start + i * size..start + (i + 1) * size]
  }

  /**
   * When each share is a single interleave block, as for the superframes of an AT9 data chunk,
   * the dealing is a plain split: output o is the o-th run of `interleaveSize` bytes.
   */
  lemma SingleBlockSplit(data: seq<byte>, start: int, outputs: seq<seq<byte>>, outputCount: nat, interleaveSize: nat)
    requires Dealt(data, start, outputs, outputCount, interleaveSize, interleaveSize)
    ensures forall o :: 0 <= o < outputCount ==> Run(data, start, o, interleaveSize, outputs[o])
  {
    forall o | 0 <= o < outputCount
      ensures Run(data, start, o, interleaveSize, outputs[o])
    {
      forall k | 0 <= k < interleaveSize
        ensures DealtOffset(k, o, outputCount, interleaveSize, interleaveSize) == o * interleaveSize + k
      {
        BlockOf(k, 0, interleaveSize);
      }
      assert 0 <= start + DealtOffset(0, o, outputCount, interleaveSize, interleaveSize);
      assert start + DealtOffset(interleaveSize - 1, o, outputCount, interleaveSize, interleaveSize) < |data|;
      MulDist(o, 1, interleaveSize);
    }
  }

  /** Byte k of output o lies in the o-th slot of its block's run, below the end of the dealt range. */
  lemma OffsetParts(k: nat, o: nat, outputCount: nat, interleaveSize: nat, inputSize: nat)
    requires interleaveSize > 0 && o < outputCount && k < inputSize
    ensures var b := k / interleaveSize; var bs := BlockSize(b, interleaveSize, inputSize);
      && b * interleaveSize <= k && k % interleaveSize < bs && k == b * interleaveSize + k % interleaveSize
      && DealtOffset(k, o, outputCount, interleaveSize, inputSize) == b * interleaveSize * outputCount + o * bs + k % interleaveSize
      && b * interleaveSize * outputCount + outputCount * bs <= inputSize * outputCount
      && b * interleaveSize * outputCount + outputCount * bs <= (b + 1) * interleaveSize * outputCount
  {
    var b := k / interleaveSize;
    DivModUnique(k, interleaveSize, b, k % interleaveSize);
    var bs := BlockSize(b, interleaveSize, inputSize);
    var n := (inputSize + interleaveSize - 1) / interleaveSize;
    CeilDiv(inputSize, interleaveSize);
    if b != n - 1 {
      assert bs == interleaveSize;
    } else {
      assert k % interleaveSize == k - b * interleaveSize;
    }
    MulLeft(0, b, interleaveSize);
    MulDist(b, 1, interleaveSize);
    RunEnd(b * interleaveSize, bs, interleaveSize, outputCount, inputSize);
  }

  /** A run of `outputCount` slots of `bs <= interleaveSize` bytes from `bi · outputCount` ends inside the data and the block. */
  lemma RunEnd(bi: nat, bs: nat, interleaveSize: nat, outputCount: nat, inputSize: nat)
    requires bi + bs <= inputSize && bs <= interleaveSize
    ensures bi * outputCount + outputCount * bs <= inputSize * outputCount
    ensures bi * outputCount + outputCount * bs <= (bi + interleaveSize) * outputCount
  {
    MulDist(bi, bs, outputCount);
    MulLeft(bi + bs, inputSize, outputCount);
    MulLeft(bs, interleaveSize, outputCount);
    MulDist(bi, interleaveSize, outputCount);
  }

  /**
   * Nothing is dealt twice and nothing lands outside the range: distinct bytes of the outputs
   * come from distinct offsets below `inputSize · outputCount`.
   */
  lemma DealtOffsetsDistinct(outputCount: nat, interleaveSize: nat, inputSize: nat, o1: nat, k1: nat, o2: nat, k2: nat)
    requires interleaveSize > 0 && o1 < outputCount && o2 < outputCount && k1 < inputSize && k2 < inputSize
    requires o1 != o2 || k1 != k2
    ensures DealtOffset(k1, o1, outputCount, interleaveSize, inputSize) < inputSize * outputCount
    ensures DealtOffset(k1, o1, outputCount, interleaveSize, inputSize) != DealtOffset(k2, o2, outputCount, interleaveSize, inputSize)
  {
    var lo, hi, end := OffsetSlot(k1, o1, outputCount, interleaveSize, inputSize);
    if k1 / interleaveSize == k2 / interleaveSize {
      SameBlockApart(outputCount, interleaveSize, inputSize, o1, k1, o2, k2);
    } else if k1 / interleaveSize < k2 / interleaveSize {
      EarlierBlockBelow(outputCount, interleaveSize, inputSize, o1, k1, o2, k2);
    } else {
      EarlierBlockBelow(outputCount, interleaveSize, inputSize, o2, k2, o1, k1);
    }
  }

  /** Within one block, distinct outputs or distinct bytes are dealt from distinct offsets. */
  lemma SameBlockApart(outputCount: nat, interleaveSize: nat, inputSize: nat, o1: nat, k1: nat, o2: nat, k2: nat)
    requires interleaveSize > 0 && o1 < outputCount && o2 < outputCount && k1 < inputSize && k2 < inputSize
    requires (o1 != o2 || k1 != k2) && k1 / interleaveSize == k2 / interleaveSize
    ensures DealtOffset(k1, o1, outputCount, interleaveSize, inputSize) != DealtOffset(k2, o2, outputCount, interleaveSize, inputSize)
  {
    var b1, r1, bs1 := OffsetOf(k1, o1, outputCount, interleaveSize, inputSize);
    var b2, r2, bs2 := OffsetOf(k2, o2, outputCount, interleaveSize, inputSize);
    SlotsApart(b1 * interleaveSize * outputCount, bs1, o1, o2, r1, r2);
  }

  /** Byte k of output o is byte r of slot o of block b, whose slots hold `bs` bytes. */
  lemma OffsetOf(k: nat, o: nat, outputCount: nat, interleaveSize: nat, inputSize: nat) returns (b: nat, r: nat, bs: nat)
    requires interleaveSize > 0 && o < outputCount && k < inputSize
    ensures b == k / interleaveSize && k == b * interleaveSize + r && r < bs && bs == BlockSize(b, interleaveSize, inputSize)
    ensures DealtOffset(k, o, outputCount, interleaveSize, inputSize) == b * interleaveSize * outputCount + o * bs + r
  {
    OffsetParts(k, o, outputCount, interleaveSize, inputSize);
    b, r := k / interleaveSize, k % interleaveSize;
    bs := BlockSize(b, interleaveSize, inputSize);
  }

  /** Distinct slots of one run, or distinct bytes of one slot, are distinct offsets. */
  lemma SlotsApart(base: int, bs: nat, o1: nat, o2: nat, r1: nat, r2: nat)
    requires r1 < bs && r2 < bs && (o1 != o2 || r1 != r2)
    ensures base + o1 * bs + r1 != base + o2 * bs + r2
  {
    if o1 < o2 {
      MulLeft(o1 + 1, o2, bs);
      MulDist(o1, 1, bs);
    } else if o2 < o1 {
      MulLeft(o2 + 1, o1, bs);
      MulDist(o2, 1, bs);
    }
  }

  /** Every offset of an earlier block lies below every offset of a later one. */
  lemma EarlierBlockBelow(outputCount: nat, interleaveSize: nat, inputSize: nat, o1: nat, k1: nat, o2: nat, k2: nat)
    requires interleaveSize > 0 && o1 < outputCount && o2 < outputCount && k1 < inputSize && k2 < inputSize
    requires k1 / interleaveSize < k2 / interleaveSize
    ensures DealtOffset(k1, o1, outputCount, interleaveSize, inputSize) < DealtOffset(k2, o2, outputCount, interleaveSize, inputSize)
  {
    var lo1, hi1, end1 := OffsetSlot(k1, o1, outputCount, interleaveSize, inputSize);
    var lo2, hi2, end2 := OffsetSlot(k2, o2, outputCount, interleaveSize, inputSize);
    BlocksOrdered(k1 / interleaveSize, k2 / interleaveSize, interleaveSize, outputCount);
  }

  /** The run of an earlier block ends no later than the run of a later block begins. */
  lemma BlocksOrdered(b1: nat, b2: nat, interleaveSize: nat, outputCount: nat)
    requires b1 < b2
    ensures (b1 + 1) * interleaveSize * outputCount <= b2 * interleaveSize * outputCount
  {
    MulLeft(b1 + 1, b2, interleaveSize);
    MulLeft((b1 + 1) * interleaveSize, b2 * interleaveSize, outputCount);
  }

  /**
   * Byte k of output o is dealt from [lo, hi), the slot of output o in the run of its block,
   * and the block's run ends at `end`, no later than the next block's run begins.
   */
  lemma OffsetSlot(k: nat, o: nat, outputCount: nat, interleaveSize: nat, inputSize: nat) returns (lo: nat, hi: nat, end: nat)
    requires interleaveSize > 0 && o < outputCount && k < inputSize
    ensures var b := k / interleaveSize; var bs := BlockSize(b, interleaveSize, inputSize);
      && lo == b * interleaveSize * outputCount + o * bs && hi == lo + bs
      && lo <= DealtOffset(k, o, outputCount, interleaveSize, inputSize) < hi
      && DealtOffset(k, o, outputCount, interleaveSize, inputSize) - lo == k % interleaveSize
      && hi <= end <= inputSize * outputCount && end <= (b + 1) * interleaveSize * outputCount
      && hi == b * interleaveSize * outputCount + (o + 1) * bs
      && b * interleaveSize * outputCount <= lo
      && k == b * interleaveSize + k % interleaveSize
  {
    OffsetParts(k, o, outputCount, interleaveSize, inputSize);
    var b := k / interleaveSize;
    var bs := BlockSize(b, interleaveSize, inputSize);
    lo := b * interleaveSize * outputCount + o * bs;
    hi := lo + bs;
    end := b * interleaveSize * outputCount + outputCount * bs;
    MulDist(o, 1, bs);
    MulLeft(o + 1, outputCount, bs);
  }
}
