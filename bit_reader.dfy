/**
 * The bit reader: a cursor over a byte buffer read most-significant bit first.
 * Every peek is proved against the bit string the buffer denotes (BitStream.StreamBits),
 * which the reader carries as a ghost field.
 */
module BitReading {
  import opened JsInt
  import opened Wrappers
  import opened Bit
  import opened BitStream

  /** The two biases of an offset-binary field. */
  const OFFSET_POSITIVE: int := 1
  const OFFSET_NEGATIVE: int := 0

  /** Bits in a buffer; no buffer has none. */
  function BufferLength(buffer: Option<seq<byte>>): (r: nat)
    ensures buffer.Some? ==> r == 8 * |buffer.value|
    ensures buffer.None? ==> r == 0
  {
    if buffer.Some? then 8 * |buffer.value| else 0
  }

  /** bits spells out the buffer byte by byte; no buffer is the empty string. */
  ghost predicate Encodes(bits: seq<bool>, buffer: Option<seq<byte>>)
  {
    match buffer
    case None => bits == []
    case Some(data) => |bits| == 8 * |data| && forall k :: 0 <= k < |data| ==> ByteIn(bits, k, data[k])
  }

  /** Bits pos.. pos + m - 1 read as an m-bit two's-complement number. */
  function SignedValue(s: seq<bool>, pos: nat, m: nat): int
  {
    Value(s, pos, m) - (if m > 0 && BitIn(s, pos) == 1 then Pow2(m) else 0)
  }

  /** The 18 to 25-bit reads taken by the four-byte fast path. */
  predicate WidePath(n: nat, remaining: int)
  {
    18 <= n <= 25 && remaining >= 32
  }

  /**
   * What a peek of n bits at position of the bit string returns. It is the n bits, zero-padded
   * past the end and wrapped to 32 bits, except in two cases. A read that overruns the end
   * by 32 bits or more shifts by the count taken modulo 32. A read on the four-byte fast path
   * keeps the bits of the first byte that precede position, so it returns the
   * (position % 8 + n)-bit signed number that starts at that byte.
   */
  function PeekValue(bits: seq<bool>, position: nat, n: nat): int
  {
    var remaining := |bits| - position;
    if 0 < remaining < n && n - remaining >= 32 then Shl(Value(bits, position, remaining), n - remaining)
    else if WidePath(n, remaining) then SignedValue(bits, 8 * (position / 8), position % 8 + n)
    else ToInt32(Value(bits, position, n))
  }

  /** `Math.ceil(position / multiple) * multiple`. */
  function AlignUp(position: nat, multiple: nat): (r: nat)
    requires multiple > 0
    ensures r % multiple == 0 && position <= r < position + multiple
  {
    var q := (position + multiple - 1) / multiple;
    MulAddDivMod(q, 0, multiple);
    q * multiple
  }

  class BitReader {
    var buffer: Option<seq<byte>>
    var lengthBits: nat
    var position: nat
    /** The bit string of the buffer. */
    ghost var bits: seq<bool>

    ghost predicate Valid()
      reads this
    {
      lengthBits == BufferLength(buffer) && Encodes(bits, buffer)
    }

    constructor(buffer: Option<seq<byte>>)
      ensures Valid() && this.buffer == buffer && position == 0
      ensures bits == if buffer.Some? then StreamBits(buffer.value) else []
    {
      this.buffer := buffer;
      lengthBits := BufferLength(buffer);
      position := 0;
      bits := if buffer.Some? then StreamBits(buffer.value) else [];
      if buffer.Some? {
        EncodesStream(buffer.value);
      }
    }

    method SetBuffer(buffer: Option<seq<byte>>)
      modifies this
      ensures Valid() && this.buffer == buffer && position == 0
      ensures bits == if buffer.Some? then StreamBits(buffer.value) else []
    {
      this.buffer := buffer;
      lengthBits := BufferLength(buffer);
      position := 0;
      bits := if buffer.Some? then StreamBits(buffer.value) else [];
      if buffer.Some? {
        EncodesStream(buffer.value);
      }
    }

    function Remaining(): int
      reads this
    {
      lengthBits - position
    }

    /** The reader's one peek, with its three fast paths over two, three and four whole bytes. */
    method PeekInt(bitCount: nat) returns (value: int)
      requires Valid()
      ensures value == PeekValue(bits, position, bitCount)
    {
      if buffer.None? {
        ValuePastEnd(bits, position, bitCount);
        return 0;
      }
      var data := buffer.value;
      assert |bits| == lengthBits;
      if bitCount > Remaining() {
        if position >= lengthBits {
          ValuePastEnd(bits, position, bitCount);
          return 0;
        }
        var extraBits := bitCount - Remaining();
        var v := PeekIntFallback(Remaining());
        PaddedRead(bits, position, Remaining(), bitCount);
        return Shl(v, extraBits);
      }

      if bitCount <= 9 && Remaining() >= 16 {
        value := PeekTwoBytes(bitCount);
        SmallBits(bits, position, bitCount);
        PeekExact(bits, position, bitCount);
        return;
      }
      if bitCount <= 17 && Remaining() >= 24 {
        value := PeekThreeBytes(bitCount);
        SmallBits(bits, position, bitCount);
        PeekExact(bits, position, bitCount);
        return;
      }
      if bitCount <= 25 && Remaining() >= 32 {
        value := PeekFourBytes(bitCount);
        return;
      }

      value := PeekIntFallback(bitCount);
    }

    /** The fast path over the two bytes at the byte of position. */
    method PeekTwoBytes(bitCount: nat) returns (value: int)
      requires Valid() && buffer.Some? && bitCount <= 9 && Remaining() >= 16
      ensures value == Value(bits, position, bitCount)
    {
      var data := buffer.value;
      var byteIndex: nat := position / 8;
      var bitIndex: nat := position % 8;
      ByteSplit(position);
      var v := Or(Shl(data[byteIndex], 8), data[byteIndex + 1]);
      var shift := 16 - bitCount - bitIndex;
      TwoBytePath(bits, data, position, bitCount, byteIndex, bitIndex, 0xFFFF, v, shift);
      value := Sar(And(v, Sar(0xFFFF, bitIndex)), shift);
    }

    /** The fast path over the three bytes at the byte of position. */
    method PeekThreeBytes(bitCount: nat) returns (value: int)
      requires Valid() && buffer.Some? && bitCount <= 17 && Remaining() >= 24
      ensures value == Value(bits, position, bitCount)
    {
      var data := buffer.value;
      var byteIndex: nat := position / 8;
      var bitIndex: nat := position % 8;
      ByteSplit(position);
      var v := Or(Or(Shl(data[byteIndex], 16), Shl(data[byteIndex + 1], 8)), data[byteIndex + 2]);
      var shift := 24 - bitCount - bitIndex;
      ThreeBytePath(bits, data, position, bitCount, byteIndex, bitIndex, 0xFF_FFFF, v, shift);
      value := Sar(And(v, Sar(0xFF_FFFF, bitIndex)), shift);
    }

    /**
     * The fast path over the four bytes at the byte of position, taken by 18 to 25-bit reads.
     * Its mask keeps all 32 bits, so the bits of that byte before position stay in the result.
     */
    method PeekFourBytes(bitCount: nat) returns (value: int)
      requires Valid() && buffer.Some? && 18 <= bitCount <= 25 && Remaining() >= 32
      ensures value == SignedValue(bits, 8 * (position / 8), position % 8 + bitCount)
    {
      var data := buffer.value;
      var byteIndex: nat := position / 8;
      var bitIndex: nat := position % 8;
      ByteSplit(position);
      var v := Or(Or(Or(Shl(data[byteIndex], 24), Shl(data[byteIndex + 1], 16)), Shl(data[byteIndex + 2], 8)), data[byteIndex + 3]);
      var shift := 32 - bitCount - bitIndex;
      FourBytePath(bits, data, position, bitCount, byteIndex, bitIndex, 0xFFFF_FFFF, v, shift);
      WideAt(bits, position, byteIndex, bitIndex, bitCount);
      value := Sar(And(v, Sar(0xFFFF_FFFF, bitIndex)), shift);
    }

    /** Reads bitCount bits piece by piece, at most one byte's worth per step. */
    method PeekIntFallback(bitCount: nat) returns (value: int)
      requires Valid()
      ensures value == ToInt32(Value(bits, position, bitCount))
    {
      if buffer.None? {
        ValuePastEnd(bits, position, bitCount);
        return 0;
      }
      var data := buffer.value;
      value := 0;
      var byteIndex: nat := position / 8;
      var bitIndex: nat := position % 8;
      var count: nat := bitCount;
      ghost var done: nat := 0;

      while count > 0
        invariant done + count == bitCount && bitIndex <= 8
        invariant 8 * byteIndex + bitIndex == position + done
        invariant value == ToInt32(Value(bits, position, done))
      {
        if bitIndex >= 8 {
          bitIndex := 0;
          byteIndex := byteIndex + 1;
        }
        var bitsToRead := if count < 8 - bitIndex then count else 8 - bitIndex;
        ghost var total := done + bitsToRead;
        value := TakeBits(data, byteIndex, bitIndex, bitsToRead, value, bits, position, done, total);
        bitIndex := bitIndex + bitsToRead;
        count := count - bitsToRead;
        done := total;
      }
      assert done == bitCount;
    }

    method ReadInt(bitCount: nat) returns (value: int)
      requires Valid()
      modifies this
      ensures Valid() && unchanged(this`buffer, this`bits) && position == old(position) + bitCount
      ensures value == PeekValue(bits, old(position), bitCount)
    {
      value := PeekInt(bitCount);
      position := position + bitCount;
    }

    method ReadSignedInt(bitCount: nat) returns (value: int)
      requires Valid()
      modifies this
      ensures Valid() && unchanged(this`buffer, this`bits) && position == old(position) + bitCount
      ensures value == SignExtend32(PeekValue(bits, old(position), bitCount), bitCount)
    {
      value := PeekInt(bitCount);
      position := position + bitCount;
      value := SignExtend32(value, bitCount);
    }

    method ReadBool() returns (value: bool)
      requires Valid()
      modifies this
      ensures Valid() && unchanged(this`buffer, this`bits) && position == old(position) + 1
      ensures value <==> BitIn(bits, old(position)) == 1
    {
      var bit := ReadInt(1);
      PeekBits(bits, old(position), 1);
      value := bit == 1;
    }

    /** A field stored with an offset of 2^(bitCount - 1) - bias. */
    method ReadOffsetBinary(bitCount: nat, bias: int) returns (value: int)
      requires Valid()
      modifies this
      ensures Valid() && unchanged(this`buffer, this`bits) && position == old(position) + bitCount
      ensures value == OffsetBinary(bits, old(position), bitCount, bias)
    {
      var offset := Shl(1, bitCount - 1) - bias;
      value := PeekInt(bitCount);
      value := value - offset;
      position := position + bitCount;
    }

    method AlignPosition(multiple: nat)
      requires Valid() && multiple > 0
      modifies this
      ensures Valid() && unchanged(this`buffer, this`bits) && position == AlignUp(old(position), multiple)
    {
      position := ((position + multiple - 1) / multiple) * multiple;
    }
  }

  /**
   * The body of the fallback loop: the bitsToRead bits of byte byteIndex that start at bit
   * bitIndex, masked, shifted down and or-ed in below the value read so far.
   */
  method TakeBits(data: seq<byte>, byteIndex: nat, bitIndex: nat, bitsToRead: nat, value: int,
                  ghost bits: seq<bool>, ghost position: nat, ghost done: nat, ghost total: nat) returns (next: int)
    requires Encodes(bits, Some(data))
    requires 8 * byteIndex + bitIndex == position + done && bitIndex < 8 && 1 <= bitsToRead <= 8 - bitIndex
    requires value == ToInt32(Value(bits, position, done)) && total == done + bitsToRead
    ensures next == ToInt32(Value(bits, position, total))
  {
    var mask := Sar(0xFF, bitIndex);
    var shift := 8 - bitIndex - bitsToRead;
    var currentByte := Sar(And(mask, ByteAt(data, byteIndex)), shift);
    next := Or(Shl(value, bitsToRead), currentByte);
    FallbackStep(bits, data, position, done, byteIndex, bitIndex, bitsToRead, value, ByteAt(data, byteIndex), 0xFF,
      shift, currentByte, total, next);
  }

  // ---------------------------------------------------------------------------
  // The reader's bit string.

  lemma EncodesStream(data: seq<byte>)
    ensures Encodes(StreamBits(data), Some(data))
  {
    forall k | 0 <= k < |data|
      ensures ByteIn(StreamBits(data), k, data[k])
    {
      StreamByte(data, k);
    }
  }

  /** The string a buffer encodes is its stream: the reader's ghost bits are determined by its buffer. */
  lemma EncodesUnique(bits: seq<bool>, data: seq<byte>)
    requires Encodes(bits, Some(data))
    ensures bits == StreamBits(data)
  {
    var s := StreamBits(data);
    EncodesStream(data);
    forall p | 0 <= p < |bits|
      ensures bits[p] == s[p]
    {
      var k, j := p / 8, p % 8;
      assert OfByte(bits, k, j) == BitAt(data[k], 7 - j);
      assert OfByte(s, k, j) == BitAt(data[k], 7 - j);
    }
  }

  lemma EncodedByte(bits: seq<bool>, data: seq<byte>, k: nat)
    requires Encodes(bits, Some(data))
    ensures ByteIn(bits, k, ByteAt(data, k))
  {
    if k >= |data| {
      ByteInPastEnd(bits, k);
    }
  }

  // ---------------------------------------------------------------------------
  // What the peeks return.

  /** Reads of at most 17 bits return exactly the bits of the string, zero-padded past its end. */
  lemma PeekBits(bits: seq<bool>, position: nat, n: nat)
    requires n <= 17
    ensures PeekValue(bits, position, n) == Value(bits, position, n)
  {
    SmallBits(bits, position, n);
  }

  /** At or past the end, and so throughout a reader without a buffer, every peek is 0. */
  lemma PeekPastEnd(bits: seq<bool>, position: nat, n: nat)
    requires position >= |bits|
    ensures PeekValue(bits, position, n) == 0
  {
    ValuePastEnd(bits, position, n);
  }

  /** Reads of up to 32 bits off the four-byte fast path are the string's bits wrapped to 32 bits. */
  lemma PeekExact(bits: seq<bool>, position: nat, n: nat)
    requires n <= 32 && !WidePath(n, |bits| - position)
    ensures PeekValue(bits, position, n) == ToInt32(Value(bits, position, n))
  {
  }

  /**
   * A signed read of 1 to 32 bits is the two's-complement value of those bits, on every path:
   * the stray bits of the four-byte fast path all lie above the n bits that sign extension keeps.
   */
  lemma PeekSigned(bits: seq<bool>, position: nat, n: nat)
    requires 1 <= n <= 32
    ensures SignExtend32(PeekValue(bits, position, n), n) ==
      var v := Value(bits, position, n); if v < Pow2(n - 1) then v else v - Pow2(n)
  {
    var v := Value(bits, position, n);
    ValueBound(bits, position, n);
    SignExtendField(v, n);
    if WidePath(n, |bits| - position) {
      var c := WideOffset(bits, position, n);
      SignExtendOffset(PeekValue(bits, position, n), v, c, n);
    } else {
      var c := ToInt32Offset(v, n);
      SignExtendOffset(ToInt32(v), v, c, n);
    }
  }

  /** The value of an n-bit field stored with an offset of 2^(n - 1) - bias. */
  function OffsetBinary(bits: seq<bool>, position: nat, n: nat, bias: int): int
  {
    PeekValue(bits, position, n) - (Shl(1, n - 1) - bias)
  }

  /** An offset-binary read of at most 17 bits: the bits less 2^(n-1), plus the bias. */
  lemma OffsetBinaryRange(bits: seq<bool>, position: nat, n: nat, bias: int)
    requires 1 <= n <= 17
    ensures OffsetBinary(bits, position, n, bias) == Value(bits, position, n) - Pow2(n - 1) + bias
    ensures -(Pow2(n - 1) as int) + bias <= OffsetBinary(bits, position, n, bias) < Pow2(n - 1) + bias
  {
    PeekBits(bits, position, n);
    ValueBound(bits, position, n);
    ShlOne(n - 1);
    assert Pow2(n) == 2 * Pow2(n - 1);
  }

  /** Aligning an aligned position leaves it where it is. */
  lemma AlignIdempotent(position: nat, multiple: nat)
    requires multiple > 0
    ensures AlignUp(AlignUp(position, multiple), multiple) == AlignUp(position, multiple)
  {
    var r := AlignUp(position, multiple);
    AlignedFixed(r, multiple);
  }

  lemma AlignedFixed(r: nat, m: nat)
    requires m > 0 && r % m == 0
    ensures AlignUp(r, m) == r
  {
    var a := AlignUp(r, m);
    var q, q' := r / m, a / m;
    assert r == q * m && a == q' * m;
    if q' > q {
      MulLeft(q + 1, q', m);
      MulDist(q, 1, m);
    } else if q' < q {
      MulLeft(q', q - 1, m);
      MulDist(q, 1, m);
    }
  }

  // ---------------------------------------------------------------------------
  // The paths of PeekInt against the bit string.

  lemma TwoBytePath(bits: seq<bool>, data: seq<byte>, position: nat, n: nat, k: nat, bi: nat, mask: int, word: int, sh: int)
    requires Encodes(bits, Some(data)) && n <= 9 && position + 16 <= |bits|
    requires k == position / 8 && bi == position % 8 && mask == 0xFFFF && sh == 16 - n - bi
    requires k + 1 < |data| && word == Or(Shl(data[k], 8), data[k + 1])
    ensures Sar(And(word, Sar(mask, bi)), sh) == Value(bits, position, n)
  {
    ByteSplit(position);
    var w, base := 16, 8 * k;
    Word16(data[k], data[k + 1]);
    Value16(bits, k, data[k], data[k + 1]);
    Pow2Word(w);
    ValueMasked(bits, base, bi, n, w, mask, word, sh, position);
  }

  lemma ThreeBytePath(bits: seq<bool>, data: seq<byte>, position: nat, n: nat, k: nat, bi: nat, mask: int, word: int, sh: int)
    requires Encodes(bits, Some(data)) && n <= 17 && position + 24 <= |bits|
    requires k == position / 8 && bi == position % 8 && mask == 0xFF_FFFF && sh == 24 - n - bi
    requires k + 2 < |data| && word == Or(Or(Shl(data[k], 16), Shl(data[k + 1], 8)), data[k + 2])
    ensures Sar(And(word, Sar(mask, bi)), sh) == Value(bits, position, n)
  {
    ByteSplit(position);
    var w, base := 24, 8 * k;
    Word24(data[k], data[k + 1], data[k + 2]);
    Value24(bits, k, data[k], data[k + 1], data[k + 2]);
    Pow2Of24(w);
    ValueMasked(bits, base, bi, n, w, mask, word, sh, position);
  }

  lemma FourBytePath(bits: seq<bool>, data: seq<byte>, position: nat, n: nat, k: nat, bi: nat, ones: int, word: int, sh: int)
    requires Encodes(bits, Some(data)) && 18 <= n <= 25 && position + 32 <= |bits|
    requires k == position / 8 && bi == position % 8 && ones == 0xFFFF_FFFF && sh == 32 - n - bi
    requires k + 3 < |data| && word == Or(Or(Or(Shl(data[k], 24), Shl(data[k + 1], 16)), Shl(data[k + 2], 8)), data[k + 3])
    ensures Sar(And(word, Sar(ones, bi)), sh) == SignedValue(bits, 8 * k, bi + n)
  {
    ByteSplit(position);
    var sum := (data[k] as int) * 0x100_0000 + (data[k + 1] as int) * 0x1_0000 + (data[k + 2] as int) * 0x100 + data[k + 3];
    Word32(data[k], data[k + 1], data[k + 2], data[k + 3], sum);
    Value32(bits, k, data[k], data[k + 1], data[k + 2], data[k + 3], sum);
    WideWindow(bits, 8 * k, bi, n, word, ones, sh);
  }

  /** The window of the four-byte path, named by the byte and bit index of position. */
  lemma WideAt(s: seq<bool>, position: nat, k: nat, bi: nat, n: nat)
    requires k == position / 8 && bi == position % 8
    ensures SignedValue(s, 8 * (position / 8), position % 8 + n) == SignedValue(s, 8 * k, bi + n)
  {
  }

  lemma ByteSplit(position: nat)
    ensures 8 * (position / 8) + position % 8 == position && position % 8 < 8
  {
  }

  lemma SmallBits(s: seq<bool>, position: nat, n: nat)
    requires n <= 31
    ensures ToInt32(Value(s, position, n)) == Value(s, position, n)
  {
    ValueBound(s, position, n);
    Pow2Monotone(n, 31);
    Pow2Word(31);
  }

  /** The read of the r bits left, shifted up by the missing count, is the zero-padded read. */
  lemma PaddedRead(s: seq<bool>, position: nat, r: nat, n: nat)
    requires r == |s| - position && r < n
    ensures n - r < 32 ==> Shl(ToInt32(Value(s, position, r)), n - r) == ToInt32(Value(s, position, n))
    ensures Shl(ToInt32(Value(s, position, r)), n - r) == Shl(Value(s, position, r), n - r)
  {
    var b := Value(s, position, r);
    ShlOfInt32(b, n - r);
    if n - r < 32 {
      ZeroPadding(s, position, r, n);
      ShlProduct(b, n - r);
    }
  }

  /** Bits bi.. bi + n - 1 of the w-bit word at base, masked and shifted as the fast paths do. */
  lemma ValueMasked(s: seq<bool>, base: nat, bi: nat, n: nat, w: nat, mask: int, word: int, sh: int, pos: nat)
    requires w <= 31 && bi + n <= w && mask == Pow2(w) - 1 && word == Value(s, base, w) && sh == w - n - bi
    requires pos == base + bi
    ensures Sar(And(word, Sar(mask, bi)), sh) == Value(s, pos, n)
  {
    ValueBound(s, base, w);
    LowBitsWindow(word, mask, w, bi, n, sh);
    ValueWindow(s, base, w, bi, n);
  }

  /** The four-byte path: no mask is applied, and the arithmetic shift keeps the sign of the word. */
  lemma WideWindow(s: seq<bool>, base: nat, bi: nat, n: nat, word: int, ones: int, sh: int)
    requires bi < 8 && 1 <= bi + n <= 32 && ones == 0xFFFF_FFFF && word == ToInt32(Value(s, base, 32)) && sh == 32 - n - bi
    ensures Sar(And(word, Sar(ones, bi)), sh) == SignedValue(s, base, bi + n)
  {
    AllOnesShift(ones, bi);
    AndAllOnes(word);
    var w := 32;
    SignedWindow(s, base, bi + n, w, sh, base + bi + n);
  }

  /** One step of the fallback loop appends the next t bits to the value read so far. */
  lemma FallbackStep(s: seq<bool>, data: seq<byte>, position: nat, done: nat, k: nat, bi: nat, t: nat, value: int,
                     d: byte, mask: int, sh: int, c: int, total: nat, next: int)
    requires 8 * k + bi == position + done && bi < 8 && 1 <= t <= 8 - bi
    requires Encodes(s, Some(data)) && d == ByteAt(data, k) && mask == 0xFF
    requires sh == 8 - bi - t && c == Sar(And(Sar(mask, bi), d), sh) && total == done + t
    requires value == ToInt32(Value(s, position, done)) && next == Or(Shl(value, t), c)
    ensures next == ToInt32(Value(s, position, total))
  {
    EncodedByte(s, data, k);
    var at := position + done;
    ByteMasked(s, k, d, bi, t, mask, sh, at);
    ValueBound(s, at, t);
    SplitAt(s, position, done, t, total, at);
    ShlOrStep(Value(s, position, done), t, c, Value(s, position, total));
  }

  /** The bits a fallback step takes out of byte k. */
  lemma ByteMasked(s: seq<bool>, k: nat, d: byte, bi: nat, t: nat, mask: int, sh: int, pos: nat)
    requires ByteIn(s, k, d) && bi < 8 && 1 <= t <= 8 - bi && mask == 0xFF && sh == 8 - bi - t && pos == 8 * k + bi
    ensures Sar(And(Sar(mask, bi), d), sh) == Value(s, pos, t)
  {
    var w := 8;
    WholeByteAt(s, k, 8 * k, w, d);
    AndCommutes(Sar(mask, bi), d);
    Pow2Word(w);
    ValueMasked(s, 8 * k, bi, t, w, mask, d, sh, pos);
  }

  /** The top m bits of a 32-bit window, taken by an arithmetic shift, are their signed value. */
  lemma SignedWindow(s: seq<bool>, base: nat, m: nat, w: nat, sh: nat, next: nat)
    requires 1 <= m <= 32 && w == 32 && sh == w - m && next == base + m
    ensures Sar(ToInt32(Value(s, base, w)), sh) == SignedValue(s, base, m)
  {
    SignedQuotient(s, base, m, w, sh, next);
    SarExact(ToInt32(Value(s, base, w)), sh);
  }

  lemma SignedQuotient(s: seq<bool>, base: nat, m: nat, w: nat, sh: nat, next: nat)
    requires 1 <= m <= 32 && w == 32 && sh == w - m && next == base + m
    ensures ToInt32(Value(s, base, w)) / Pow2(sh) == SignedValue(s, base, m)
  {
    SplitAt(s, base, m, sh, w, next);
    ValueBound(s, next, sh);
    TopSplit(s, base, m);
    ValueBound(s, base + 1, m - 1);
    FieldScale(0, m, sh);
    SignedSplit(Value(s, base, w), Value(s, base, m), Value(s, next, sh), BitIn(s, base), Value(s, base + 1, m - 1),
      Pow2(sh), Pow2(m - 1), Pow2(m));
  }

  lemma SplitAt(s: seq<bool>, pos: nat, a: nat, b: nat, total: nat, next: nat)
    requires total == a + b && next == pos + a
    ensures Value(s, pos, total) == Value(s, pos, a) * Pow2(b) + Value(s, next, b)
  {
    ValueSplit(s, pos, a, b);
  }

  /** The first of m bits carries weight 2^(m - 1). */
  lemma TopSplit(s: seq<bool>, pos: nat, m: nat)
    requires m >= 1
    ensures Value(s, pos, m) == BitIn(s, pos) * Pow2(m - 1) + Value(s, pos + 1, m - 1)
  {
    SplitAt(s, pos, 1, m - 1, m, pos + 1);
  }

  /** The four-byte path's result differs from the n bits read by a multiple of 2^n. */
  lemma WideOffset(s: seq<bool>, position: nat, n: nat) returns (c: int)
    requires n >= 1
    ensures SignedValue(s, 8 * (position / 8), position % 8 + n) == Value(s, position, n) + c * Pow2(n)
  {
    var k, bi := position / 8, position % 8;
    assert 8 * k + bi == position;
    c := StrayOffset(s, k, bi, n);
  }

  lemma StrayOffset(s: seq<bool>, k: nat, bi: nat, n: nat) returns (c: int)
    requires n >= 1
    ensures SignedValue(s, 8 * k, bi + n) == Value(s, 8 * k + bi, n) + c * Pow2(n)
  {
    SplitAt(s, 8 * k, bi, n, bi + n, 8 * k + bi);
    Pow2Add(bi, n);
    var top := BitIn(s, 8 * k) == 1;
    var stray := Value(s, 8 * k, bi);
    OffsetArith(SignedValue(s, 8 * k, bi + n), Value(s, 8 * k, bi + n), stray, Value(s, 8 * k + bi, n),
      top, Pow2(bi), Pow2(n), Pow2(bi + n));
    c := stray - (if top then Pow2(bi) else 0);
  }

  lemma OffsetArith(sv: int, whole: int, stray: int, b: int, top: bool, pbi: int, pn: int, pt: int)
    requires whole == stray * pn + b && pt == pbi * pn && sv == whole - (if top then pt else 0)
    ensures sv == b + (stray - (if top then pbi else 0)) * pn
  {
    MulDist(stray, if top then pbi else 0, pn);
  }

  // ---------------------------------------------------------------------------
  // Arithmetic of the operators on the words the reader builds.

  lemma Pow2Of24(n: nat)
    requires n == 24
    ensures Pow2(n) == 0x100_0000
  {
    Pow2Word(16);
    Pow2Word(8);
    Pow2Add(16, 8);
  }

  /** 2^b and 2^(32 - b) multiply to 2^32. */
  lemma WordFactors(b: nat) returns (pb: nat, pe: nat)
    requires b <= 32
    ensures pb == Pow2(b) && pe == Pow2(32 - b) && pb * pe == TWO_32
  {
    pb, pe := Pow2(b), Pow2(32 - b);
    Pow2Add(b, 32 - b);
    Pow2Word(32);
  }

  /** ToInt32 moves its argument by a multiple of 2^32. */
  lemma ToInt32Shift(x: int) returns (m: int)
    ensures ToInt32(x) == x + m * TWO_32
  {
    var q, u := x / TWO_32, x % TWO_32;
    m := if u < TWO_31 then -q else -q - 1;
  }

  /** ToInt32 changes its argument by a multiple of 2^32, hence of 2^b. */
  lemma ToInt32Offset(x: int, b: nat) returns (c: int)
    requires b <= 32
    ensures ToInt32(x) == x + c * Pow2(b)
  {
    var m := ToInt32Shift(x);
    var pb, pe := WordFactors(b);
    c := m * pe;
    MulAssoc(m, pe, pb);
  }

  /** ToInt32 agrees on arguments a multiple of 2^32 apart. */
  lemma ToInt32Congruent(x: int, y: int, m: int)
    requires x == y + m * TWO_32
    ensures ToInt32(x) == ToInt32(y)
  {
    var q := y / TWO_32;
    MulDist(q, m, TWO_32);
    DivModUnique(x, TWO_32, q + m, y % TWO_32);
  }

  /** `x << e` for a count below 32 is the product wrapped to 32 bits. */
  lemma ShlProduct(x: int, e: nat)
    requires e < 32
    ensures Shl(x, e) == ToInt32(x * Pow2(e))
  {
    assert e % 32 == e;
    var q, p := x / TWO_32, Pow2(e);
    assert ToUint32(x) == x - q * TWO_32;
    MulDist(x, q * TWO_32, p);
    MulAssoc(q, TWO_32, p);
    ToInt32Congruent(x * p, ToUint32(x) * p, q * p);
  }

  lemma ShlOfInt32(x: int, e: int)
    ensures Shl(ToInt32(x), e) == Shl(x, e)
  {
  }

  /** One fallback step: shift the value read so far up by t and or in the t new bits. */
  lemma ShlOrStep(b: nat, t: nat, c: int, sum: int)
    requires 1 <= t <= 8 && 0 <= c < Pow2(t) && sum == b * Pow2(t) + c
    ensures Or(Shl(ToInt32(b), t), c) == ToInt32(sum)
  {
    var p, pe := WordFactors(t);
    ShlOfInt32(b, t);
    ShlProduct(b, t);
    var u := ToUint32(b * p);
    var q := LowClear(b * p, b, p, pe);
    Pow2Word(32);
    BitOrDisjoint(u, c, t, 32);
    Pow2Monotone(t, 32);
    OrUnsigned(Shl(ToInt32(b), t), c, u);
    ToInt32Congruent(sum, BitOr(u, c, 32), q);
  }

  lemma OrUnsigned(x: int, c: nat, u: nat)
    requires c < TWO_32 && u == ToUint32(x)
    ensures Or(x, c) == ToInt32(BitOr(u, c, 32))
  {
  }

  /** A multiple of 2^t stays one when wrapped to 32 bits. */
  lemma LowClear(bp: int, b: int, p: int, pe: int) returns (q: int)
    requires bp == b * p && p >= 1 && p * pe == TWO_32
    ensures ToUint32(bp) == bp - q * TWO_32 && ToUint32(bp) % p == 0
  {
    q := bp / TWO_32;
    MulDist(b, q * pe, p);
    MulAssoc(q, pe, p);
    MulAddDivMod(b - q * pe, 0, p);
  }

  /** `(2^w - 1) >> bi` is the low mask of w - bi bits. */
  lemma MaskShift(mask: int, w: nat, bi: nat)
    requires mask == Pow2(w) - 1 && bi <= w <= 31
    ensures Sar(mask, bi) == Pow2(w - bi) - 1
  {
    LowMaskBelow(w);
    SarNonNegative(mask, bi);
    Pow2Add(w - bi, bi);
    MulDist(Pow2(w - bi), 1, Pow2(bi));
    DivModUnique(mask, Pow2(bi), Pow2(w - bi) - 1, Pow2(bi) - 1);
  }

  lemma LowBitsWindow(word: nat, mask: int, w: nat, bi: nat, n: nat, sh: int)
    requires word < Pow2(w) && w <= 31 && bi + n <= w && mask == Pow2(w) - 1 && sh == w - n - bi
    ensures Sar(And(word, Sar(mask, bi)), sh) == (word % Pow2(w - bi)) / Pow2(w - bi - n)
  {
    MaskShift(mask, w, bi);
    Pow2Monotone(w, 31);
    Pow2Word(31);
    AndLowMask(word, w - bi);
    ModBelow(word, Pow2(w - bi));
    SarNonNegative(word % Pow2(w - bi), sh);
  }

  lemma {:induction false} BitAndCommutes(a: nat, b: nat, n: nat)
    ensures BitAnd(a, b, n) == BitAnd(b, a, n)
  {
    if n > 0 {
      BitAndCommutes(a / 2, b / 2, n - 1);
    }
  }

  lemma AndCommutes(x: int, y: int)
    ensures And(x, y) == And(y, x)
  {
    BitAndCommutes(ToUint32(x), ToUint32(y), 32);
  }

  lemma AllOnesShift(ones: int, bi: nat)
    requires ones == 0xFFFF_FFFF && bi < 32
    ensures Sar(ones, bi) == -1
  {
    assert ToInt32(ones) == -1;
    assert bi % 32 == bi;
    DivModUnique(-1, Pow2(bi), -1, Pow2(bi) - 1);
  }

  // The word lemmas take every compound term they mention as a parameter (sum, prod), so that
  // their callers' terms match the instantiated contracts without arithmetic.

  /** An or of a word whose low k bits are clear with a value below 2^k is their sum. */
  lemma OrBelow(a: int, hi: nat, lo: int, k: nat, p: nat, sum: int)
    requires k <= 32 && p == Pow2(k) && a == hi * p && a < TWO_32 && 0 <= lo < p && sum == a + lo
    ensures Or(ToInt32(a), lo) == ToInt32(sum)
  {
    DivModUnique(a, p, hi, 0);
    OrDisjoint(a, lo, k, sum);
    OrOfInt32(a, lo);
  }

  lemma OrOfInt32(x: int, y: int)
    ensures Or(ToInt32(x), y) == Or(x, y)
  {
  }

  /** A byte shifted up by e < 32 bits is the wrapped product. */
  lemma ShlByte(d: byte, e: nat, p: nat, prod: int)
    requires e < 32 && p == Pow2(e) && prod == d * p
    ensures Shl(d, e) == ToInt32(prod)
  {
    ShlProduct(d, e);
  }

  lemma SmallWord(x: int)
    requires 0 <= x < TWO_31
    ensures ToInt32(x) == x
  {
  }

  /**
   * The words the fast paths assemble from two, three and four bytes. Each partial word is
   * written as hi * p, the form OrBelow asks for, and only the last one as the plain sum.
   */
  lemma Word16(d0: byte, d1: byte)
    ensures Or(Shl(d0, 8), d1) == (d0 as int) * 0x100 + d1
  {
    Pow2Word(8);
    ShlByte(d0, 8, 0x100, d0 * 0x100);
    OrBelow(d0 * 0x100, d0, d1, 8, 0x100, d0 * 0x100 + d1);
    SmallWord(d0 * 0x100 + d1);
  }

  lemma Word24(d0: byte, d1: byte, d2: byte)
    ensures Or(Or(Shl(d0, 16), Shl(d1, 8)), d2) == (d0 as int) * 0x1_0000 + (d1 as int) * 0x100 + d2
  {
    Pow2Word(8);
    Pow2Word(16);
    ShlByte(d0, 16, 0x1_0000, d0 * 0x1_0000);
    ShlByte(d1, 8, 0x100, d1 * 0x100);
    SmallWord(d1 * 0x100);
    OrBelow(d0 * 0x1_0000, d0, d1 * 0x100, 16, 0x1_0000, (d0 * 0x100 + d1) * 0x100);
    OrBelow((d0 * 0x100 + d1) * 0x100, d0 * 0x100 + d1, d2, 8, 0x100, d0 * 0x1_0000 + d1 * 0x100 + d2);
    SmallWord(d0 * 0x1_0000 + d1 * 0x100 + d2);
  }

  lemma Word32(d0: byte, d1: byte, d2: byte, d3: byte, sum: int)
    requires sum == (d0 as int) * 0x100_0000 + (d1 as int) * 0x1_0000 + (d2 as int) * 0x100 + d3
    ensures Or(Or(Or(Shl(d0, 24), Shl(d1, 16)), Shl(d2, 8)), d3) == ToInt32(sum)
  {
    Pow2Word(8);
    Pow2Word(16);
    Pow2Of24(24);
    ShlByte(d0, 24, 0x100_0000, d0 * 0x100_0000);
    ShlByte(d1, 16, 0x1_0000, d1 * 0x1_0000);
    ShlByte(d2, 8, 0x100, d2 * 0x100);
    SmallWord(d1 * 0x1_0000);
    SmallWord(d2 * 0x100);
    OrBelow(d0 * 0x100_0000, d0, d1 * 0x1_0000, 24, 0x100_0000, (d0 * 0x100 + d1) * 0x1_0000);
    OrBelow((d0 * 0x100 + d1) * 0x1_0000, d0 * 0x100 + d1, d2 * 0x100, 16, 0x1_0000,
      ((d0 * 0x100 + d1) * 0x100 + d2) * 0x100);
    OrBelow(((d0 * 0x100 + d1) * 0x100 + d2) * 0x100, (d0 * 0x100 + d1) * 0x100 + d2, d3, 8, 0x100,
      d0 * 0x100_0000 + d1 * 0x1_0000 + d2 * 0x100 + d3);
  }

  /** Sign extension to b bits ignores everything above bit b - 1. */
  lemma SignExtendOffset(v: int, w: int, c: int, b: int)
    requires 1 <= b <= 32 && v == w + c * Pow2(b)
    ensures SignExtend32(v, b) == SignExtend32(w, b)
  {
    var e := 32 - b;
    var pb, pe := WordFactors(b);
    ShlProduct(v, e);
    ShlProduct(w, e);
    ScaledOffset(v, w, c, pb, pe);
    ToInt32Congruent(v * pe, w * pe, c);
  }

  lemma ScaledOffset(v: int, w: int, c: int, pb: int, pe: int)
    requires v == w + c * pb && pb * pe == TWO_32
    ensures v * pe == w * pe + c * TWO_32
  {
    MulDist(w, c * pb, pe);
    MulAssoc(c, pb, pe);
  }

  /** A 32-bit word whose top m bits are h, with low part l, shifted down arithmetically. */
  lemma SignedSplit(v: int, h: int, l: int, top: int, rest: int, p: int, q: int, pm: int)
    requires p >= 1 && q >= 1 && q * p == TWO_31 && pm == 2 * q
    requires v == h * p + l && 0 <= l < p && h == top * q + rest && 0 <= rest < q && (top == 0 || top == 1)
    ensures ToInt32(v) / p == h - (if top == 1 then pm else 0)
  {
    MulLeft(rest, q - 1, p);
    MulDist(q, 1, p);
    MulLeft(0, rest, p);
    if top == 0 {
      assert 0 <= v < TWO_31;
      DivModUnique(v, p, h, l);
    } else {
      MulDist(q, rest, p);
      assert TWO_31 <= v < TWO_32;
      assert ToInt32(v) == v - TWO_32;
      MulDist(h, 2 * q, p);
      MulAssoc(2, q, p);
      DivModUnique(ToInt32(v), p, h - 2 * q, l);
    }
  }
}
