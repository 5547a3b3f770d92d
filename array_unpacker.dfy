/**
 * `ArrayUnpacker`: the packed-array container the decoder's runtime tables are stored in,
 * after decompression. A header of two zero bytes and a record count is followed by records
 * of an id, a type byte (element type in the high nibble, rank in the low one) and a nested
 * array in one of three layouts. The functions below state the grammar on the bytes; the
 * methods read it through a `BinaryReader` and are proved to agree with them.
 */
module ArrayUnpacking {
  import opened JsInt
  import opened Wrappers
  import opened BinaryReading

  /** The typed-array constructors of `TypeLookup`. */
  datatype ElementType = Uint8 | Int8 | Int16 | Uint16 | Int32 | Uint32 | BigInt64 | BigUint64 | Float32 | Float64

  /** `TypeLookup`: indices 0 and 2 are both `Uint8Array`. */
  const TypeLookup: seq<ElementType> :=
    [Uint8, Int8, Uint8, Int16, Uint16, Int32, Uint32, BigInt64, BigUint64, Float32, Float64]

  /** `TypeLookup[index]`, which is `undefined` past the end of the table. */
  function LookupType(index: nat): (r: Option<ElementType>)
    ensures r.Some? <==> index < 11
  {
    if index < |TypeLookup| then Some(TypeLookup[index]) else None
  }

  /** `BYTES_PER_ELEMENT`. */
  function Width(kind: ElementType): (r: nat)
    ensures r in {1, 2, 4, 8}
  {
    match kind
    case Uint8 => 1
    case Int8 => 1
    case Int16 => 2
    case Uint16 => 2
    case Int32 => 4
    case Uint32 => 4
    case Float32 => 4
    case _ => 8
  }

  predicate IsSigned(kind: ElementType)
  {
    kind == Int8 || kind == Int16 || kind == Int32 || kind == BigInt64
  }

  /** The element types whose elements are JavaScript BigInts. */
  predicate IsBig(kind: ElementType)
  {
    kind == BigInt64 || kind == BigUint64
  }

  predicate IsFloat(kind: ElementType)
  {
    kind == Float32 || kind == Float64
  }

  /** `GetHighNibble`: bits 4 to 7 of a byte. */
  function GetHighNibble(value: byte): nat
  {
    value / 16
  }

  /** `GetLowNibble`: bits 0 to 3 of a byte. */
  function GetLowNibble(value: byte): nat
  {
    value % 16
  }

  /** The two nibbles are below 16 and put the byte back together. */
  lemma NibblesSplit(value: byte)
    ensures GetHighNibble(value) < 16 && GetLowNibble(value) < 16
    ensures value == 16 * GetHighNibble(value) + GetLowNibble(value)
  {
  }

  /** 2^bits for the element width of `kind`: how many values an element can take. */
  function Modulus(kind: ElementType): (m: nat)
    ensures m > 0
  {
    match Width(kind)
    case 1 => 0x100
    case 2 => 0x1_0000
    case 4 => 0x1_0000_0000
    case 8 => 0x1_0000_0000_0000_0000
  }

  lemma ModulusPow2(kind: ElementType)
    ensures Modulus(kind) == Pow2(8 * Width(kind))
  {
    Pow2Of32();
    Pow2Add(32, 32);
  }

  /** The values an integer typed array of `kind` can hold. */
  predicate InRange(kind: ElementType, v: int)
  {
    if IsSigned(kind) then -(Modulus(kind) / 2) <= v < Modulus(kind) / 2 else 0 <= v < Modulus(kind)
  }

  /** A number below the modulus read as an element: two's complement when the type is signed. */
  function Wrap(kind: ElementType, u: nat): (r: int)
    requires u < Modulus(kind)
    ensures InRange(kind, r) && (r == u || r == u - Modulus(kind))
  {
    if IsSigned(kind) && u >= Modulus(kind) / 2 then u - Modulus(kind) else u
  }

  /** The element an integer typed array holds in `bytes`: little-endian, two's complement when signed. */
  function ElementValue(kind: ElementType, bytes: seq<byte>): (r: int)
    requires !IsFloat(kind) && |bytes| == Width(kind)
    ensures InRange(kind, r)
  {
    ModulusPow2(kind);
    Wrap(kind, LittleEndian(bytes))
  }

  /** The `w` bytes of element i. */
  function Chunk(bytes: seq<byte>, w: nat, count: nat, i: nat): (r: seq<byte>)
    requires |bytes| == count * w && i < count
    ensures |r| == w && i * w + w <= |bytes| && r == bytes[i * w..i * w + w]
  {
    MulDist(i, 1, w);
    MulLeft(i + 1, count, w);
    bytes[i * w..i * w + w]
  }

  /** `new kind(buffer)` over `count` elements' worth of bytes: element i from the i-th run of `Width` bytes. */
  function Elements(kind: ElementType, bytes: seq<byte>, count: nat): (r: seq<int>)
    requires !IsFloat(kind) && |bytes| == count * Width(kind)
    ensures |r| == count
    ensures forall i :: 0 <= i < count ==> r[i] == ElementValue(kind, Chunk(bytes, Width(kind), count, i))
  {
    seq(count, i requires 0 <= i < count => ElementValue(kind, Chunk(bytes, Width(kind), count, i)))
  }

  /**
   * Storing a number into an element of `kind`: taken modulo 2^bits, then read back as
   * two's complement for the signed types (`ToInt8`, `ToUint16`, `BigInt.asIntN` and the like).
   */
  function Store(kind: ElementType, v: int): (r: int)
    ensures InRange(kind, r)
    ensures (r - v) % Modulus(kind) == 0
  {
    var m := Modulus(kind);
    var r := Wrap(kind, v % m);
    Congruent(v, m, r);
    r
  }

  lemma Congruent(v: int, m: int, r: int)
    requires m > 0 && (r == v % m || r == v % m - m)
    ensures (r - v) % m == 0
  {
    var q := v / m;
    assert v == q * m + v % m;
    if r == v % m {
      MulDist(0, q, m);
      DivModUnique(r - v, m, -q, 0);
    } else {
      MulDist(-q, 1, m);
      DivModUnique(r - v, m, -q - 1, 0);
    }
  }

  /** A value that fits the target type is stored unchanged. */
  lemma StoreKeeps(kind: ElementType, v: int)
    requires InRange(kind, v)
    ensures Store(kind, v) == v
  {
    var m, r := Modulus(kind), Store(kind, v);
    var k := (r - v) / m;
    assert r - v == k * m;
    if k >= 1 {
      MulLeft(1, k, m);
    } else if k <= -1 {
      MulLeft(k, -1, m);
    }
  }

  /** The element-by-element copy into a new array of `out`. */
  function Convert(out: ElementType, values: seq<int>): (r: seq<int>)
    ensures |r| == |values| && forall i :: 0 <= i < |values| ==> r[i] == Store(out, values[i])
  {
    seq(|values|, i requires 0 <= i < |values| => Store(out, values[i]))
  }

  /** Copying into a type that holds every value of the source type changes nothing. */
  lemma ConvertWidening(stored: ElementType, out: ElementType, bytes: seq<byte>, count: nat)
    requires !IsFloat(stored) && !IsFloat(out) && |bytes| == count * Width(stored)
    requires forall v :: InRange(stored, v) ==> InRange(out, v)
    ensures Convert(out, Elements(stored, bytes, count)) == Elements(stored, bytes, count)
  {
    var values := Elements(stored, bytes, count);
    forall i | 0 <= i < count
      ensures Store(out, values[i]) == values[i]
    {
      StoreKeeps(out, values[i]);
    }
  }

  /** An unpacked record: `null`, a typed array, or a plain array of records. */
  datatype Packed =
    | Null
    | Values(kind: ElementType, values: seq<int>)  // an integer typed array
    | Bytes(kind: ElementType, raw: seq<byte>)     // a floating-point typed array, kept as its bytes
    | Items(items: seq<Packed>)

  /** Why unpacking throws. */
  datatype UnpackError =
    | InvalidData      // a non-zero header byte, or a layout mode above 2
    | UnknownType      // a type nibble past `TypeLookup`, where its constructor is needed
    | Unreadable       // a read past the end of the data
    | NegativeRank     // `new Array(rank)` for a layout-1 record reached at a negative rank
    | TypeMismatch     // copying between BigInt and Number typed arrays
    | FloatConversion  // copying to or from a floating-point type, which this model leaves out

  /** A record read from the data and the offset just after it. */
  datatype Parsed = Parsed(value: Packed, next: nat)

  /** The little-endian u16 at `pos`. */
  function U16(data: seq<byte>, pos: nat): nat
    requires pos + 2 <= |data|
  {
    data[pos] as int + 256 * (data[pos + 1] as int)
  }

  /** `count` consecutive u16 values from `pos`. */
  function U16s(data: seq<byte>, pos: nat, count: nat): (r: seq<nat>)
    requires pos + 2 * count <= |data|
    ensures |r| == count && forall i :: 0 <= i < count ==> r[i] == U16(data, pos + 2 * i)
  {
    seq(count, i requires 0 <= i < count => U16(data, pos + 2 * i))
  }

  /** The typed array `new kind(buffer)` makes of the bytes of `count` elements. */
  function View(kind: ElementType, bytes: seq<byte>, count: nat): Packed
    requires |bytes| == count * Width(kind)
  {
    if IsFloat(kind) then Bytes(kind, bytes) else Values(kind, Elements(kind, bytes, count))
  }

  /** An empty typed array of `kind`. */
  function Empty(kind: ElementType): Packed
  {
    if IsFloat(kind) then Bytes(kind, []) else Values(kind, [])
  }

  /**
   * `ReadArray`: a length of 0xFFFF is `null`; otherwise `length` elements of the stored type,
   * copied into an array of the output type when the two differ.
   */
  function ReadArrayAt(data: seq<byte>, pos: nat, stored: Option<ElementType>, out: Option<ElementType>, length: nat)
    : (r: Result<Parsed, UnpackError>)
    requires pos <= |data|
    ensures length == 0xFFFF ==> r == Success(Parsed(Null, pos))
    ensures r.Success? && length != 0xFFFF ==>
      && stored.Some? && out.Some? && r.value.next == pos + length * Width(stored.value)
      && (r.value.value.Values? || r.value.value.Bytes?) && r.value.value.kind == out.value
      && (r.value.value.Values? ==> |r.value.value.values| == length)
    ensures r.Success? ==> pos <= r.value.next <= |data|
  {
    if length == 0xFFFF then Success(Parsed(Null, pos))
    else if stored.None? then Failure(UnknownType)
    else
      var kind := stored.value;
      var n := length * Width(kind);
      if !InBounds(data, pos, n) then Failure(Unreadable)
      else
        var a := ArrayOf(kind, out, data[pos..pos + n], length);
        if a.Failure? then Failure(a.error) else Success(Parsed(a.value, pos + n))
  }

  /**
   * The array `ReadArray` makes of the `length` elements it read: a view of the bytes when the
   * output type is the stored one, otherwise a copy converted element by element.
   */
  function ArrayOf(kind: ElementType, out: Option<ElementType>, bytes: seq<byte>, length: nat): (r: Result<Packed, UnpackError>)
    requires |bytes| == length * Width(kind)
    ensures r.Success? ==>
      && out.Some? && (r.value.Values? || r.value.Bytes?) && r.value.kind == out.value
      && (r.value.Values? ==> |r.value.values| == length)
  {
    if out == Some(kind) then Success(View(kind, bytes, length))
    else if out.None? then Failure(UnknownType)
    else if length == 0 then Success(Empty(out.value))
    else if IsFloat(kind) || IsFloat(out.value) then Failure(FloatConversion)
    else if IsBig(kind) != IsBig(out.value) then Failure(TypeMismatch)
    else Success(Values(out.value, Convert(out.value, Elements(kind, bytes, length))))
  }

  /**
   * `UnpackArray` at `pos`: a mode byte of 0xFF is `null`; otherwise its high nibble picks the
   * layout and its low nibble the stored element type.
   */
  function UnpackAt(data: seq<byte>, pos: nat, out: Option<ElementType>, rank: int): (r: Result<Parsed, UnpackError>)
    requires pos <= |data|
    ensures r.Success? ==> pos < r.value.next <= |data|
    ensures pos < |data| && data[pos] == 0xFF ==> r == Success(Parsed(Null, pos + 1))
    ensures pos < |data| && data[pos] != 0xFF && GetHighNibble(data[pos]) > 2 ==> r == Failure(InvalidData)
    decreases |data| - pos, 3, 0
  {
    if pos + 1 > |data| then Failure(Unreadable)
    else
      var modeType := data[pos];
      if modeType == 0xFF then Success(Parsed(Null, pos + 1))
      else
        var mode := GetHighNibble(modeType);
        var stored := LookupType(GetLowNibble(modeType));
        if mode == 0 then Mode0At(data, pos + 1, stored, out, rank)
        else if mode == 1 then Mode1At(data, pos + 1, stored, out, rank)
        else if mode == 2 then Mode2At(data, pos + 1, stored, out)
        else Failure(InvalidData)
  }

  /** Layout 0: a u16 length, then one leaf of that length at rank 1, or that many records of the rank below. */
  function Mode0At(data: seq<byte>, pos: nat, stored: Option<ElementType>, out: Option<ElementType>, rank: int)
    : (r: Result<Parsed, UnpackError>)
    requires 0 < pos <= |data|
    ensures r.Success? ==> pos <= r.value.next <= |data|
    ensures r.Success? && rank != 1 ==> pos + 2 <= |data| && r.value.value.Items? && |r.value.value.items| == U16(data, pos)
    decreases |data| - pos + 1, 2, 0
  {
    if pos + 2 > |data| then Failure(Unreadable)
    else
      var length := U16(data, pos);
      if rank == 1 then ReadArrayAt(data, pos + 2, stored, out, length)
      else SubRecords(data, pos + 2, out, rank - 1, length, [])
  }

  /** The records of a layout-0 array below rank 1, each read where the previous one ended. */
  function SubRecords(data: seq<byte>, pos: nat, out: Option<ElementType>, rank: int, count: nat, acc: seq<Packed>)
    : (r: Result<Parsed, UnpackError>)
    requires pos <= |data|
    ensures r.Success? ==>
      && pos <= r.value.next <= |data| && r.value.value.Items?
      && |r.value.value.items| == |acc| + count && r.value.value.items[..|acc|] == acc
    decreases |data| - pos + 1, 0, count
  {
    if count == 0 then Success(Parsed(Items(acc), pos))
    else
      var item := UnpackAt(data, pos, out, rank);
      if item.Failure? then Failure(item.error)
      else SubRecords(data, item.value.next, out, rank, count - 1, acc + [item.value.value])
  }

  /** Layout 1: `rank` u16 dimensions, then a rectangular nested array of those dimensions. */
  function Mode1At(data: seq<byte>, pos: nat, stored: Option<ElementType>, out: Option<ElementType>, rank: int)
    : (r: Result<Parsed, UnpackError>)
    requires 0 < pos <= |data|
    ensures r.Success? ==>
      && rank >= 0 && pos + 2 * rank <= r.value.next <= |data|
      && Shaped(r.value.value, U16s(data, pos, rank), 0)
    decreases |data| - pos + 1, 2, 0
  {
    if rank < 0 then Failure(NegativeRank)
    else if pos + 2 * rank > |data| then Failure(Unreadable)
    else Internal(data, pos + 2 * rank, stored, out, 0, U16s(data, pos, rank))
  }

  /**
   * The shape layout 1 promises from `depth` on: `null` past the last dimension; at the last
   * one a leaf of that many elements, or `null` for 0xFFFF; above it that many sub-arrays.
   */
  ghost predicate Shaped(p: Packed, dims: seq<nat>, depth: nat)
    decreases |dims| - depth
  {
    if depth >= |dims| then p == Null
    else if depth == |dims| - 1 then
      if dims[depth] == 0xFFFF then p == Null else (p.Values? && |p.values| == dims[depth]) || p.Bytes?
    else p.Items? && |p.items| == dims[depth] && forall i :: 0 <= i < |p.items| ==> Shaped(p.items[i], dims, depth + 1)
  }

  /** `UnpackInternal`: the nested array of dimensions `dims` from `depth` on. */
  function Internal(data: seq<byte>, pos: nat, stored: Option<ElementType>, out: Option<ElementType>, depth: nat, dims: seq<nat>)
    : (r: Result<Parsed, UnpackError>)
    requires pos <= |data|
    ensures r.Success? ==> pos <= r.value.next <= |data| && Shaped(r.value.value, dims, depth)
    decreases |dims| - depth, 2, 0
  {
    if depth >= |dims| then Success(Parsed(Null, pos))
    else if depth == |dims| - 1 then ReadArrayAt(data, pos, stored, out, dims[depth])
    else Rows(data, pos, stored, out, depth, dims, dims[depth], [])
  }

  /** The sub-arrays of one level of `UnpackInternal`, read one after another. */
  function Rows(data: seq<byte>, pos: nat, stored: Option<ElementType>, out: Option<ElementType>, depth: nat, dims: seq<nat>,
                count: nat, acc: seq<Packed>)
    : (r: Result<Parsed, UnpackError>)
    requires pos <= |data| && depth < |dims| - 1
    requires forall i :: 0 <= i < |acc| ==> Shaped(acc[i], dims, depth + 1)
    ensures r.Success? ==>
      && pos <= r.value.next <= |data| && r.value.value.Items? && |r.value.value.items| == |acc| + count
      && forall i :: 0 <= i < |r.value.value.items| ==> Shaped(r.value.value.items[i], dims, depth + 1)
    decreases |dims| - depth, 1, count
  {
    if count == 0 then Success(Parsed(Items(acc), pos))
    else
      var row := Internal(data, pos, stored, out, depth + 1, dims);
      if row.Failure? then Failure(row.error)
      else Rows(data, row.value.next, stored, out, depth, dims, count - 1, acc + [row.value.value])
  }

  /** Layout 2: a u16 count, that many u16 lengths, then a leaf of each length: a jagged array. */
  function Mode2At(data: seq<byte>, pos: nat, stored: Option<ElementType>, out: Option<ElementType>)
    : (r: Result<Parsed, UnpackError>)
    requires 0 < pos <= |data|
    ensures r.Success? ==>
      && pos + 2 <= |data| && pos + 2 + 2 * U16(data, pos) <= r.value.next <= |data|
      && r.value.value.Items? && |r.value.value.items| == U16(data, pos)
      && forall i :: 0 <= i < U16(data, pos) ==>
           Leaf(r.value.value.items[i], U16s(data, pos + 2, U16(data, pos))[i])
    decreases |data| - pos + 1, 2, 0
  {
    if pos + 2 > |data| then Failure(Unreadable)
    else Jagged(data, pos + 2, stored, out, U16(data, pos))
  }

  /** The body of layout 2 after its count: `count` u16 lengths, then a leaf of each length. */
  function Jagged(data: seq<byte>, pos: nat, stored: Option<ElementType>, out: Option<ElementType>, count: nat)
    : (r: Result<Parsed, UnpackError>)
    requires pos <= |data|
    ensures r.Success? ==>
      && pos + 2 * count <= r.value.next <= |data|
      && r.value.value.Items? && |r.value.value.items| == count
      && forall i :: 0 <= i < count ==> Leaf(r.value.value.items[i], U16s(data, pos, count)[i])
  {
    if pos + 2 * count > |data| then Failure(Unreadable)
    else Leaves(data, pos + 2 * count, stored, out, U16s(data, pos, count), [])
  }

  /** What `ReadArray` gives for `length`: `null` for 0xFFFF, else a typed array of that many elements. */
  ghost predicate Leaf(p: Packed, length: nat)
  {
    if length == 0xFFFF then p == Null else (p.Values? && |p.values| == length) || p.Bytes?
  }

  /** The leaves of layout 2, one per length, read one after another. */
  function Leaves(data: seq<byte>, pos: nat, stored: Option<ElementType>, out: Option<ElementType>, lengths: seq<nat>, acc: seq<Packed>)
    : (r: Result<Parsed, UnpackError>)
    requires pos <= |data|
    ensures r.Success? ==>
      && pos <= r.value.next <= |data| && r.value.value.Items?
      && |r.value.value.items| == |acc| + |lengths| && r.value.value.items[..|acc|] == acc
      && forall i :: 0 <= i < |lengths| ==> Leaf(r.value.value.items[|acc| + i], lengths[i])
    decreases |lengths|
  {
    if |lengths| == 0 then Success(Parsed(Items(acc), pos))
    else
      var leaf := ReadArrayAt(data, pos, stored, out, lengths[0]);
      if leaf.Failure? then Failure(leaf.error)
      else
        var r := Leaves(data, leaf.value.next, stored, out, lengths[1..], acc + [leaf.value.value]);
        if r.Success? then
          assert r.value.value.items[..|acc| + 1] == acc + [leaf.value.value];
          assert r.value.value.items[|acc|] == leaf.value.value;
          forall i | 1 <= i < |lengths|
            ensures Leaf(r.value.value.items[|acc| + i], lengths[i])
          {
            assert lengths[1..][i - 1] == lengths[i];
            assert |acc| + i == |acc + [leaf.value.value]| + (i - 1);
          }
          assert r.value.value.items[..|acc|] == (acc + [leaf.value.value])[..|acc|];
          r
        else r
  }

  /**
   * `UnpackArrays` after decompression: bytes 0 and 1 must be 0, then a u16 record count, then
   * the records, each stored under its id; a later record replaces an earlier one with the same id.
   */
  function ArraysAt(data: seq<byte>): (r: Result<map<nat, Packed>, UnpackError>)
    ensures |data| >= 2 && (data[0] != 0 || data[1] != 0) ==> r == Failure(InvalidData)
    ensures r.Success? ==> forall id :: id in r.value ==> id < 256
  {
    if |data| < 2 then Failure(Unreadable)
    else if data[0] != 0 || data[1] != 0 then Failure(InvalidData)
    else if |data| < 4 then Failure(Unreadable)
    else Records(data, 4, U16(data, 2), map[])
  }

  /** The records from `pos` on, `count` of them, added to `arrays`. */
  function Records(data: seq<byte>, pos: nat, count: nat, arrays: map<nat, Packed>): (r: Result<map<nat, Packed>, UnpackError>)
    requires pos <= |data|
    requires forall id :: id in arrays ==> id < 256
    ensures r.Success? ==> arrays.Keys <= r.value.Keys && forall id :: id in r.value ==> id < 256
    decreases count
  {
    if count == 0 then Success(arrays)
    else
      var step := RecordAt(data, pos, arrays);
      if step.Failure? then Failure(step.error)
      else Records(data, step.value.0, count - 1, step.value.1)
  }

  /**
   * One record at `pos`: its id byte and type byte, then the array the type byte describes,
   * stored under the id. The result is where the record ends and the arrays with it added.
   */
  function RecordAt(data: seq<byte>, pos: nat, arrays: map<nat, Packed>): (r: Result<(nat, map<nat, Packed>), UnpackError>)
    requires pos <= |data|
    requires forall id :: id in arrays ==> id < 256
    ensures r.Success? ==> pos <= r.value.0 <= |data| && arrays.Keys <= r.value.1.Keys
    ensures r.Success? ==> forall id :: id in r.value.1 ==> id < 256
  {
    if pos + 2 > |data| then Failure(Unreadable)
    else
      var id, type_ := data[pos], data[pos + 1];
      var record := UnpackAt(data, pos + 2, LookupType(GetHighNibble(type_)), GetLowNibble(type_));
      if record.Failure? then Failure(record.error)
      else Success((record.value.next, arrays[id := record.value.value]))
  }

  /** A method's result and cursor agree with the grammar's result at the offset it started from. */
  predicate Matches(r: Result<Packed, UnpackError>, s: Result<Parsed, UnpackError>, position: int)
  {
    && (r.Success? <==> s.Success?)
    && (r.Failure? ==> r.error == s.error)
    && (r.Success? ==> r.value == s.value.value && position == s.value.next)
  }

  /** `UnpackArrays` after decompression: the header, then the records into an array indexed by id. */
  method UnpackArrays(packedArrays: seq<byte>) returns (r: Result<map<nat, Packed>, UnpackError>)
    ensures r == ArraysAt(packedArrays)
  {
    var reader := new BinaryReader(packedArrays);
    var count := ReadHeader(reader);
    if count.Failure? {
      return Failure(count.error);
    }
    r := ReadRecords(reader, count.value);
  }

  /** The two flag bytes, which must be zero, and the u16 record count. */
  method ReadHeader(reader: BinaryReader) returns (r: Result<nat, UnpackError>)
    requires reader.position == 0
    modifies reader
    ensures |reader.data| < 2 ==> r == Failure(Unreadable)
    ensures |reader.data| >= 2 && (reader.data[0] != 0 || reader.data[1] != 0) ==> r == Failure(InvalidData)
    ensures |reader.data| >= 2 && reader.data[0] == 0 && reader.data[1] == 0 ==>
      if |reader.data| < 4 then r == Failure(Unreadable)
      else r == Success(U16(reader.data, 2)) && reader.position == 4
  {
    var compressed := reader.ReadUInt8();
    var version := reader.ReadUInt8();
    if compressed.Failure? || version.Failure? {
      return Failure(Unreadable);
    }
    if compressed.value != 0 || version.value != 0 {
      return Failure(InvalidData);
    }
    var count := reader.ReadUInt16();
    if count.Failure? {
      return Failure(Unreadable);
    }
    r := Success(count.value);
  }

  /** The record loop of `UnpackArrays`. */
  method ReadRecords(reader: BinaryReader, count: nat) returns (r: Result<map<nat, Packed>, UnpackError>)
    requires 0 <= reader.position <= |reader.data|
    modifies reader
    ensures r == Records(reader.data, old(reader.position), count, map[])
  {
    var arrays: map<nat, Packed> := map[];
    ghost var records := Records(reader.data, reader.position, count, arrays);
    for i := 0 to count
      invariant 0 <= reader.position <= |reader.data| && forall id :: id in arrays ==> id < 256
      invariant records == Records(reader.data, reader.position, count - i, arrays)
    {
      var next := ReadRecord(reader, arrays);
      if next.Failure? {
        return Failure(next.error);
      }
      arrays := next.value;
    }
    r := Success(arrays);
  }

  /** A pass of the record loop: the record's header, then its array, stored under its id. */
  method ReadRecord(reader: BinaryReader, arrays: map<nat, Packed>) returns (r: Result<map<nat, Packed>, UnpackError>)
    requires 0 <= reader.position <= |reader.data|
    requires forall id :: id in arrays ==> id < 256
    modifies reader
    ensures var s := RecordAt(reader.data, old(reader.position), arrays);
      && (r.Success? <==> s.Success?)
      && (r.Failure? ==> r.error == s.error)
      && (r.Success? ==> r.value == s.value.1 && reader.position == s.value.0)
  {
    var header := ReadRecordHeader(reader);
    if header.Failure? {
      return Failure(Unreadable);
    }
    var (id, type_) := header.value;
    var record := UnpackArray(reader, LookupType(GetHighNibble(type_)), GetLowNibble(type_));
    if record.Failure? {
      return Failure(record.error);
    }
    r := Success(arrays[id := record.value]);
  }

  /** A record's id byte and type byte. */
  method ReadRecordHeader(reader: BinaryReader) returns (r: Result<(byte, byte), UnpackError>)
    modifies reader
    ensures InBounds(reader.data, old(reader.position), 2) <==> r.Success?
    ensures r.Success? ==>
      var at := old(reader.position);
      r.value == (reader.data[at], reader.data[at + 1]) && reader.position == at + 2
  {
    var id := reader.ReadUInt8();
    if id.Failure? {
      return Failure(Unreadable);
    }
    var type_ := reader.ReadUInt8();
    if type_.Failure? {
      return Failure(Unreadable);
    }
    r := Success((id.value, type_.value));
  }

  /** `UnpackArray(reader, outType, rank)`. */
  method UnpackArray(reader: BinaryReader, out: Option<ElementType>, rank: int) returns (r: Result<Packed, UnpackError>)
    requires 0 <= reader.position <= |reader.data|
    modifies reader
    ensures Matches(r, UnpackAt(reader.data, old(reader.position), out, rank), reader.position)
    decreases |reader.data| - reader.position, 3, 0
  {
    var modeType := reader.ReadUInt8();
    if modeType.Failure? {
      return Failure(Unreadable);
    }
    if modeType.value == 0xFF {
      return Success(Null);
    }
    var mode := GetHighNibble(modeType.value);
    var stored := LookupType(GetLowNibble(modeType.value));
    if mode == 0 {
      r := UnpackMode0(reader, stored, out, rank);
    } else if mode == 1 {
      r := UnpackMode1(reader, stored, out, rank);
    } else if mode == 2 {
      r := UnpackMode2(reader, stored, out);
    } else {
      r := Failure(InvalidData);
    }
  }

  /** Case 0 of `UnpackArray`. */
  method UnpackMode0(reader: BinaryReader, stored: Option<ElementType>, out: Option<ElementType>, rank: int)
    returns (r: Result<Packed, UnpackError>)
    requires 0 < reader.position <= |reader.data|
    modifies reader
    ensures Matches(r, Mode0At(reader.data, old(reader.position), stored, out, rank), reader.position)
    decreases |reader.data| - reader.position + 1, 2, 0
  {
    var length := reader.ReadUInt16();
    if length.Failure? {
      return Failure(Unreadable);
    }
    if rank == 1 {
      r := ReadArray(reader, stored, out, length.value);
    } else {
      r := ReadSubRecords(reader, out, rank - 1, length.value);
    }
  }

  /** The loop of case 0: `count` records of rank `rank`, one after another. */
  method ReadSubRecords(reader: BinaryReader, out: Option<ElementType>, rank: int, count: nat) returns (r: Result<Packed, UnpackError>)
    requires 0 <= reader.position <= |reader.data|
    modifies reader
    ensures Matches(r, SubRecords(reader.data, old(reader.position), out, rank, count, []), reader.position)
    decreases |reader.data| - reader.position + 1, 0, count
  {
    var items: seq<Packed> := [];
    for i := 0 to count
      invariant old(reader.position) <= reader.position <= |reader.data|
      invariant SubRecords(reader.data, old(reader.position), out, rank, count, []) ==
                SubRecords(reader.data, reader.position, out, rank, count - i, items)
    {
      var item := UnpackArray(reader, out, rank);
      if item.Failure? {
        return Failure(item.error);
      }
      items := items + [item.value];
    }
    r := Success(Items(items));
  }

  /** Case 1 of `UnpackArray`: the dimensions, then `UnpackInternal` from depth 0. */
  method UnpackMode1(reader: BinaryReader, stored: Option<ElementType>, out: Option<ElementType>, rank: int)
    returns (r: Result<Packed, UnpackError>)
    requires 0 < reader.position <= |reader.data|
    modifies reader
    ensures Matches(r, Mode1At(reader.data, old(reader.position), stored, out, rank), reader.position)
  {
    if rank < 0 {
      return Failure(NegativeRank);
    }
    var dimensions := ReadU16s(reader, rank);
    if dimensions.Failure? {
      return Failure(Unreadable);
    }
    r := UnpackInternal(reader, stored, out, 0, dimensions.value);
  }

  /** `count` u16 reads in a row, as the dimension loop of case 1 and the length loop of case 2 do them. */
  method ReadU16s(reader: BinaryReader, count: nat) returns (r: Result<seq<nat>, UnpackError>)
    requires 0 <= reader.position <= |reader.data|
    modifies reader
    ensures r.Success? <==> old(reader.position) + 2 * count <= |reader.data|
    ensures r.Success? ==>
      r.value == U16s(reader.data, old(reader.position), count) && reader.position == old(reader.position) + 2 * count
  {
    var values: seq<nat> := [];
    for i := 0 to count
      invariant reader.position == old(reader.position) + 2 * i <= |reader.data|
      invariant values == U16s(reader.data, old(reader.position), i)
    {
      var value := reader.ReadUInt16();
      if value.Failure? {
        return Failure(Unreadable);
      }
      values := values + [value.value];
    }
    r := Success(values);
  }

  /** `UnpackInternal(outType, storedType, reader, depth, dimensions)`. */
  method UnpackInternal(reader: BinaryReader, stored: Option<ElementType>, out: Option<ElementType>, depth: nat, dims: seq<nat>)
    returns (r: Result<Packed, UnpackError>)
    requires 0 <= reader.position <= |reader.data|
    modifies reader
    ensures Matches(r, Internal(reader.data, old(reader.position), stored, out, depth, dims), reader.position)
    decreases |dims| - depth
  {
    if depth >= |dims| {
      return Success(Null);
    }
    if depth == |dims| - 1 {
      r := ReadArray(reader, stored, out, dims[depth]);
      return;
    }
    var rows: seq<Packed> := [];
    for i := 0 to dims[depth]
      invariant old(reader.position) <= reader.position <= |reader.data|
      invariant forall k :: 0 <= k < |rows| ==> Shaped(rows[k], dims, depth + 1)
      invariant Internal(reader.data, old(reader.position), stored, out, depth, dims) ==
                Rows(reader.data, reader.position, stored, out, depth, dims, dims[depth] - i, rows)
    {
      var row := UnpackInternal(reader, stored, out, depth + 1, dims);
      if row.Failure? {
        return Failure(row.error);
      }
      rows := rows + [row.value];
    }
    r := Success(Items(rows));
  }

  /** Case 2 of `UnpackArray`: the count, the lengths, then one leaf per length. */
  method UnpackMode2(reader: BinaryReader, stored: Option<ElementType>, out: Option<ElementType>)
    returns (r: Result<Packed, UnpackError>)
    requires 0 < reader.position <= |reader.data|
    modifies reader
    ensures Matches(r, Mode2At(reader.data, old(reader.position), stored, out), reader.position)
  {
    var length := reader.ReadUInt16();
    if length.Failure? {
      return Failure(Unreadable);
    }
    r := ReadJagged(reader, stored, out, length.value);
  }

  /** Case 2 after the count: the length loop, then the leaf loop. */
  method ReadJagged(reader: BinaryReader, stored: Option<ElementType>, out: Option<ElementType>, count: nat)
    returns (r: Result<Packed, UnpackError>)
    requires 0 <= reader.position <= |reader.data|
    modifies reader
    ensures Matches(r, Jagged(reader.data, old(reader.position), stored, out, count), reader.position)
  {
    var lengths := ReadU16s(reader, count);
    if lengths.Failure? {
      return Failure(Unreadable);
    }
    r := ReadLeaves(reader, stored, out, lengths.value);
  }

  /** The leaf loop of case 2. */
  method ReadLeaves(reader: BinaryReader, stored: Option<ElementType>, out: Option<ElementType>, lengths: seq<nat>)
    returns (r: Result<Packed, UnpackError>)
    requires 0 <= reader.position <= |reader.data|
    modifies reader
    ensures Matches(r, Leaves(reader.data, old(reader.position), stored, out, lengths, []), reader.position)
  {
    var leaves: seq<Packed> := [];
    for i := 0 to |lengths|
      invariant old(reader.position) <= reader.position <= |reader.data|
      invariant Leaves(reader.data, old(reader.position), stored, out, lengths, []) ==
                Leaves(reader.data, reader.position, stored, out, lengths[i..], leaves)
    {
      assert lengths[i..][1..] == lengths[i + 1..];
      var leaf := ReadArray(reader, stored, out, lengths[i]);
      if leaf.Failure? {
        return Failure(leaf.error);
      }
      leaves := leaves + [leaf.value];
    }
    r := Success(Items(leaves));
  }

  /** `ReadArray(reader, storedType, outType, length)`. */
  method ReadArray(reader: BinaryReader, stored: Option<ElementType>, out: Option<ElementType>, length: nat)
    returns (r: Result<Packed, UnpackError>)
    requires 0 <= reader.position <= |reader.data|
    modifies reader
    ensures Matches(r, ReadArrayAt(reader.data, old(reader.position), stored, out, length), reader.position)
  {
    if length == 0xFFFF {
      return Success(Null);
    }
    if stored.None? {
      return Failure(UnknownType);
    }
    r := ReadElements(reader, stored.value, out, length);
  }

  /** `ReadArray` past its two early exits: the elements' bytes, then the array made of them. */
  method ReadElements(reader: BinaryReader, kind: ElementType, out: Option<ElementType>, length: nat)
    returns (r: Result<Packed, UnpackError>)
    requires 0 <= reader.position <= |reader.data| && length != 0xFFFF
    modifies reader
    ensures Matches(r, ReadArrayAt(reader.data, old(reader.position), Some(kind), out, length), reader.position)
  {
    var n := length * Width(kind);
    ghost var pos := reader.position;
    var bytes := reader.ReadBytes(n);
    if bytes.Failure? {
      return Failure(Unreadable);
    }
    r := MakeArray(kind, out, bytes.value, length);
    ReadArrayRead(reader.data, pos, kind, out, length, n);
  }

  /** `ReadArrayAt` once the bytes of the elements are known to be there. */
  lemma ReadArrayRead(data: seq<byte>, pos: nat, kind: ElementType, out: Option<ElementType>, length: nat, n: nat)
    requires length != 0xFFFF && n == length * Width(kind) && pos + n <= |data|
    ensures var a := ArrayOf(kind, out, data[pos..pos + n], length);
      ReadArrayAt(data, pos, Some(kind), out, length) == if a.Failure? then Failure(a.error) else Success(Parsed(a.value, pos + n))
  {
  }

  /** The tail of `ReadArray` once the bytes are read: the view, or the checks and the copy. */
  method MakeArray(kind: ElementType, out: Option<ElementType>, bytes: seq<byte>, length: nat)
    returns (r: Result<Packed, UnpackError>)
    requires |bytes| == length * Width(kind)
    ensures r == ArrayOf(kind, out, bytes, length)
  {
    if out == Some(kind) {
      return Success(View(kind, bytes, length));
    }
    if out.None? {
      return Failure(UnknownType);
    }
    if length == 0 {
      return Success(Empty(out.value));
    }
    if IsFloat(kind) || IsFloat(out.value) {
      return Failure(FloatConversion);
    }
    if IsBig(kind) != IsBig(out.value) {
      return Failure(TypeMismatch);
    }
    var converted := CopyElements(out.value, Elements(kind, bytes, length));
    r := Success(Values(out.value, converted));
  }

  /** The copy loop of `ReadArray`: each element stored into a new array of the output type. */
  method CopyElements(out: ElementType, values: seq<int>) returns (r: seq<int>)
    ensures r == Convert(out, values)
  {
    var converted := new int[|values|];
    for i := 0 to |values|
      invariant forall k :: 0 <= k < i ==> converted[k] == Store(out, values[k])
    {
      converted[i] := Store(out, values[i]);
    }
    r := converted[..];
  }
}
