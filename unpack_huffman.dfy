/**
 * The field reads of the block grammar: plain unsigned and signed fields of the bit reader and
 * Huffman-coded symbols, both one at a time and as runs of consecutive fields; and the split of
 * a Huffman symbol into the coefficients it groups.
 */
module UnpackHuffman {
  import opened JsInt
  import opened Bit
  import opened BitStream
  import opened BitReading
  import opened Huffman

  /** How a field is coded: `readInt(width)`, `readSignedInt(width)` or a Huffman read. */
  datatype FieldCode = Unsigned(width: nat) | Signed(width: nat) | Coded(book: HuffmanCodebook, signed: bool)

  predicate Readable(c: FieldCode)
  {
    c.Coded? ==> ValidCodebook(c.book)
  }

  /** A field's value and the position just past it. */
  datatype Decoded = Decoded(Value: int, Next: nat)

  /**
   * The Huffman read: the symbol the lookup table holds for the MaxBitSize-bit window at pos,
   * and pos moved past that symbol's code.
   */
  function HuffmanRead(h: HuffmanCodebook, bits: seq<bool>, pos: nat): (d: Decoded)
    requires ValidCodebook(h)
    ensures 0 <= d.Value < |h.Bits| && d.Next >= pos
  {
    var window := PeekValue(bits, pos, h.MaxBitSize);
    PeekBits(bits, pos, h.MaxBitSize);
    ValueBound(bits, pos, h.MaxBitSize);
    var symbol := h.Lookup[window];
    Decoded(symbol, pos + h.Bits[symbol])
  }

  /** One field at pos. */
  function Read(c: FieldCode, bits: seq<bool>, pos: nat): (d: Decoded)
    requires Readable(c)
    ensures d.Next >= pos
  {
    match c
    case Unsigned(w) => Decoded(PeekValue(bits, pos, w), pos + w)
    case Signed(w) => Decoded(SignExtend32(PeekValue(bits, pos, w), w), pos + w)
    case Coded(h, signed) =>
      var d := HuffmanRead(h, bits, pos);
      if signed then Decoded(SignExtend32(d.Value, h.ValueBits), d.Next) else d
  }

  /** The values of n consecutive fields starting at pos, and the position after the last. */
  datatype Fields = Fields(Values: seq<int>, End: nat)

  function Run(c: FieldCode, bits: seq<bool>, pos: nat, n: nat): (r: Fields)
    requires Readable(c)
    ensures |r.Values| == n && r.End >= pos
    decreases n, 1
  {
    if n == 0 then Fields([], pos) else RunThrough(c, bits, pos, n - 1)
  }

  /** The run of k + 1 fields: the run of k, then the field where it ends. */
  function RunThrough(c: FieldCode, bits: seq<bool>, pos: nat, k: nat): (r: Fields)
    requires Readable(c)
    ensures |r.Values| == k + 1 && r.End >= pos
    decreases k + 1, 0
  {
    var before := Run(c, bits, pos, k);
    var d := Read(c, bits, before.End);
    Fields(before.Values + [d.Value], d.Next)
  }

  /** A run of n + 1 fields is the run of n followed by the field where it ends. */
  lemma RunStep(c: FieldCode, bits: seq<bool>, pos: nat, n: nat)
    requires Readable(c)
    ensures var before := Run(c, bits, pos, n); var d := Read(c, bits, before.End);
      Run(c, bits, pos, n + 1) == Fields(before.Values + [d.Value], d.Next)
  {
  }

  /**
   * A Huffman read decodes the stream: when the bits at pos begin with the code of symbol i,
   * the read returns i and consumes exactly that code's length.
   */
  lemma HuffmanReadDecodes(h: HuffmanCodebook, bits: seq<bool>, pos: nat, i: nat)
    requires ValidCodebook(h) && i < |h.Bits| && h.Bits[i] > 0
    requires Value(bits, pos, h.Bits[i]) == h.Codes[i]
    ensures HuffmanRead(h, bits, pos) == Decoded(i, pos + h.Bits[i])
  {
    var window := Value(bits, pos, h.MaxBitSize);
    WindowSelects(h, bits, pos, i, window);
    ReadAtWindow(h, bits, pos, window, i);
  }

  /** The lookup slot of the window at pos holds the symbol whose code begins there. */
  lemma WindowSelects(h: HuffmanCodebook, bits: seq<bool>, pos: nat, i: nat, window: int)
    requires ValidCodebook(h) && i < |h.Bits| && h.Bits[i] > 0
    requires Value(bits, pos, h.Bits[i]) == h.Codes[i] && window == Value(bits, pos, h.MaxBitSize)
    ensures 0 <= window < |h.Lookup| && h.Lookup[window] == i
  {
    var m := h.MaxBitSize;
    var b := h.Bits[i];
    assert b <= m by {
      MaxOfIsMaximum(h.Bits);
    }
    WindowOfCode(bits, pos, m, b, h.Codes[i], window);
    assert Covers(h.Codes, h.Bits, m, i, window);
    LookupDecodes(h, i, window);
  }

  lemma ReadAtWindow(h: HuffmanCodebook, bits: seq<bool>, pos: nat, window: int, symbol: nat)
    requires ValidCodebook(h) && window == Value(bits, pos, h.MaxBitSize)
    requires 0 <= window < |h.Lookup| && h.Lookup[window] == symbol
    ensures HuffmanRead(h, bits, pos) == Decoded(symbol, pos + h.Bits[symbol])
  {
    PeekBits(bits, pos, h.MaxBitSize);
  }

  /** The m-bit window at pos lies in the block of windows that begin with the b-bit code there. */
  lemma WindowOfCode(bits: seq<bool>, pos: nat, m: nat, b: nat, c: int, window: int)
    requires b <= m && Value(bits, pos, b) == c && window == Value(bits, pos, m)
    ensures c * Pow2(m - b) <= window < (c + 1) * Pow2(m - b)
  {
    var u: nat := m - b;
    ValueSplit(bits, pos, b, u);
    ValueBound(bits, pos + b, u);
    WithinCodeBlock(c, Pow2(u), Value(bits, pos + b, u));
  }

  lemma WithinCodeBlock(c: int, p: int, rest: int)
    requires 0 <= rest < p
    ensures c * p <= c * p + rest < (c + 1) * p
  {
    MulDist(c, 1, p);
  }

  /** A run of n fixed-width fields ends n * w bits on. */
  lemma {:induction false} FixedRunEnd(c: FieldCode, bits: seq<bool>, pos: nat, n: nat)
    requires c.Unsigned? || c.Signed?
    ensures Run(c, bits, pos, n).End == pos + n * c.width
  {
    if n > 0 {
      FixedRunEnd(c, bits, pos, n - 1);
      var w := c.width;
      assert (n - 1) * w + w == n * w;
    }
  }

  /** Field k of a run of fixed-width fields is the field k * w bits on. */
  lemma {:induction false} FixedRun(c: FieldCode, bits: seq<bool>, pos: nat, n: nat, k: nat, at: nat)
    requires c.Unsigned? || c.Signed?
    requires k < n && at == pos + k * c.width
    ensures Run(c, bits, pos, n).Values[k] == Read(c, bits, at).Value
  {
    if k < n - 1 {
      FixedRun(c, bits, pos, n - 1, k, at);
    } else {
      FixedRunEnd(c, bits, pos, n - 1);
      assert Run(c, bits, pos, n - 1).End == at;
    }
  }

  /** Unsigned reads of at most 17 bits are the stream's fields, each below 2^w. */
  lemma UnsignedField(bits: seq<bool>, pos: nat, w: nat)
    requires w <= 17
    ensures Read(Unsigned(w), bits, pos).Value == Value(bits, pos, w) < Pow2(w)
  {
    PeekBits(bits, pos, w);
    ValueBound(bits, pos, w);
  }

  /** `readHuffmanValue`: peek MaxBitSize bits, look the symbol up, skip its code. */
  method ReadHuffmanValue(h: HuffmanCodebook, reader: BitReader, signed: bool) returns (value: int)
    requires reader.Valid() && ValidCodebook(h)
    modifies reader
    ensures reader.Valid() && unchanged(reader`buffer, reader`bits)
    ensures value == Read(Coded(h, signed), reader.bits, old(reader.position)).Value
    ensures reader.position == Read(Coded(h, signed), reader.bits, old(reader.position)).Next
  {
    var code := reader.PeekInt(h.MaxBitSize);
    PeekBits(reader.bits, reader.position, h.MaxBitSize);
    ValueBound(reader.bits, reader.position, h.MaxBitSize);
    var symbol := h.Lookup[code];
    var length := h.Bits[symbol];
    reader.position := reader.position + length;
    value := if signed then SignExtend32(symbol, h.ValueBits) else symbol;
  }

  /** One field read from the reader: `readInt`, `readSignedInt` or `readHuffmanValue`. */
  method ReadField(reader: BitReader, c: FieldCode) returns (value: int)
    requires reader.Valid() && Readable(c)
    modifies reader
    ensures reader.Valid() && unchanged(reader`buffer, reader`bits)
    ensures value == Read(c, reader.bits, old(reader.position)).Value
    ensures reader.position == Read(c, reader.bits, old(reader.position)).Next
  {
    match c
    case Unsigned(w) => value := reader.ReadInt(w);
    case Signed(w) => value := reader.ReadSignedInt(w);
    case Coded(h, signed) => value := ReadHuffmanValue(h, reader, signed);
  }

  // ---------------------------------------------------------------------------
  // Splitting a symbol into coefficients.

  /** The value after f shifts right by b bits. */
  function ShiftedBy(v: int, b: int, f: nat): int
  {
    if f == 0 then v else Sar(ShiftedBy(v, b, f - 1), b)
  }

  /** Field f of a grouped value: its b bits after f shifts, sign extended. */
  function FieldValue(v: int, b: int, f: nat): int
  {
    SignExtend32(And(ShiftedBy(v, b, f), Shl(1, b) - 1), b)
  }

  /** The count coefficients of one grouped value, low field first. */
  function Group(v: int, b: int, count: nat): (r: seq<int>)
    ensures |r| == count
    decreases count, 1
  {
    if count == 0 then [] else GroupThrough(v, b, count - 1)
  }

  /** The first f + 1 coefficients of a grouped value: the first f, then field f. */
  function GroupThrough(v: int, b: int, f: nat): (r: seq<int>)
    ensures |r| == f + 1
    decreases f + 1, 0
  {
    Group(v, b, f) + [FieldValue(v, b, f)]
  }

  /** Coefficient f of a group is field f of its value. */
  lemma {:induction false} GroupAt(v: int, b: int, count: nat, f: nat)
    requires f < count
    ensures Group(v, b, count)[f] == FieldValue(v, b, f)
  {
    if f < count - 1 {
      GroupAt(v, b, count - 1, f);
    }
  }

  /** The coefficients of the first g grouped values, group after group. */
  function Unpacked(values: seq<int>, g: nat, b: int, count: nat): (r: seq<int>)
    requires g <= |values|
    ensures |r| == g * count
    decreases g, 1
  {
    if g == 0 then [] else UnpackedThrough(values, g - 1, b, count)
  }

  /** The coefficients of the first i + 1 grouped values: those of the first i, then group i. */
  function UnpackedThrough(values: seq<int>, i: nat, b: int, count: nat): (r: seq<int>)
    requires i < |values|
    ensures |r| == (i + 1) * count
    decreases i + 1, 0
  {
    var front := Unpacked(values, i, b, count);
    assert i * count + count == (i + 1) * count;
    front + Group(values[i], b, count)
  }

  /** Coefficient f of group i sits at i * count + f. */
  lemma {:induction false} UnpackedAt(values: seq<int>, g: nat, b: int, count: nat, i: nat, f: nat)
    requires g <= |values| && i < g && f < count
    ensures 0 <= i * count && i * count + f < g * count
    ensures Unpacked(values, g, b, count)[i * count + f] == Group(values[i], b, count)[f]
  {
    var front := Unpacked(values, g - 1, b, count);
    IndexBelow(i, g, count, f);
    if i < g - 1 {
      UnpackedAt(values, g - 1, b, count, i, f);
      IndexBelow(i, g - 1, count, f);
      assert Unpacked(values, g, b, count)[i * count + f] == front[i * count + f];
    } else {
      assert Unpacked(values, g, b, count)[i * count + f] == Group(values[g - 1], b, count)[i * count + f - |front|];
    }
  }

  /** Position f of block i of n blocks of count lies inside them. */
  lemma IndexBelow(i: nat, n: nat, count: nat, f: nat)
    requires i < n && f < count
    ensures 0 <= i * count && i * count + f < n * count
  {
    MulLeft(i + 1, n, count);
    assert (i + 1) * count == i * count + count;
  }

  /**
   * For a non-negative value and a field width of 1 to 30 bits, field f is digit f of the value
   * in base 2^b read as a b-bit two's-complement number: shifting and masking extract exactly
   * the bits b * f to b * f + b - 1.
   */
  lemma FieldIsDigit(v: int, b: int, f: nat)
    requires 0 <= v < TWO_31 && 1 <= b <= 30
    ensures ShiftedBy(v, b, f) == v / Pow2(b * f)
    ensures var d := (v / Pow2(b * f)) % Pow2(b); FieldValue(v, b, f) == if d < Pow2(b - 1) then d else d - Pow2(b)
  {
    var e := b * f;
    var x := v / Pow2(e);
    var d := x % Pow2(b);
    var mask := Shl(1, b) - 1;
    DigitOfShifted(v, b, f, e, x, mask, d);
    FieldCongruent(v, b, f, x, mask, d);
    SignExtendField(d, b);
  }

  lemma DigitOfShifted(v: int, b: int, f: nat, e: nat, x: int, mask: int, d: int)
    requires 0 <= v < TWO_31 && 1 <= b <= 30 && e == b * f && x == v / Pow2(e) && mask == Shl(1, b) - 1 && d == x % Pow2(b)
    ensures ShiftedBy(v, b, f) == x && And(x, mask) == d && 0 <= d < Pow2(b)
  {
    ShlOne(b);
    ShiftedDigits(v, b, f, e);
    LowMask(x, b, mask);
  }

  lemma FieldCongruent(v: int, b: int, f: nat, x: int, mask: int, d: int)
    requires ShiftedBy(v, b, f) == x && mask == Shl(1, b) - 1 && And(x, mask) == d
    ensures FieldValue(v, b, f) == SignExtend32(d, b)
  {
  }

  /** The mask of a field of b bits keeps the value's last base-2^b digit. */
  lemma LowMask(x: int, b: int, mask: int)
    requires 0 <= x < TWO_31 && 1 <= b <= 30 && mask == Pow2(b) - 1
    ensures And(x, mask) == x % Pow2(b)
  {
    AndLowMask(x, b);
  }

  lemma {:induction false} ShiftedDigits(v: int, b: int, f: nat, e: nat)
    requires 0 <= v < TWO_31 && 1 <= b <= 30 && e == b * f
    ensures ShiftedBy(v, b, f) == v / Pow2(e) && 0 <= v / Pow2(e) <= v
  {
    if f == 0 {
      assert e == 0;
    } else {
      var e0: nat := e - b;
      assert e0 == b * (f - 1);
      ShiftedDigits(v, b, f - 1, e0);
      ShiftDigit(v, b, e0, e);
    }
  }

  /** Shifting v / 2^e0 right by b more bits gives v / 2^(e0 + b). */
  lemma ShiftDigit(v: int, b: int, e0: nat, e: nat)
    requires 0 <= v < TWO_31 && 1 <= b <= 30 && e == e0 + b
    ensures Sar(v / Pow2(e0), b) == v / Pow2(e) && 0 <= v / Pow2(e) <= v
  {
    var p0, p1 := Pow2(e0), Pow2(b);
    DivAtMost(v, p0);
    var x := v / p0;
    SarNonNegative(x, b);
    DivDiv(v, p0, p1);
    Pow2Add(e0, b);
    assert Pow2(e) == p0 * p1;
    DivAtMost(v, Pow2(e));
  }

  lemma DivAtMost(x: nat, p: int)
    requires p >= 1
    ensures 0 <= x / p <= x
  {
    assert x == p * (x / p) + x % p;
    if x / p > x {
      MulLeft(1, p, x / p);
    }
  }

  /** s is base with g written from at on and nothing else changed. */
  ghost predicate Placed(base: seq<int>, s: seq<int>, at: nat, g: seq<int>)
  {
    && |s| == |base| && at + |g| <= |base|
    && forall k :: 0 <= k < |s| ==> s[k] == (if at <= k < at + |g| then g[k - at] else base[k])
  }

  /** Writing x right after what is placed places one more element. */
  lemma PlaceNext(base: seq<int>, s: seq<int>, at: nat, g: seq<int>, x: int)
    requires Placed(base, s, at, g) && at + |g| < |base|
    ensures Placed(base, s[at + |g| := x], at, g + [x])
  {
  }

  /** One field of the inner loop: field j comes after the first j. */
  lemma GroupNext(v: int, b: int, j: nat)
    ensures Group(v, b, j + 1) == Group(v, b, j) + [FieldValue(v, b, j)]
  {
  }

  /** One pass of the inner loop: field j written after the first j, and the value shifted on. */
  lemma SplitStep(r: seq<int>, s: seq<int>, at: nat, v: int, b: int, j: nat, value: int, mask: int, field: int, next: int)
    requires Placed(r, s, at, Group(v, b, j)) && at + j < |r|
    requires value == ShiftedBy(v, b, j) && mask == Shl(1, b) - 1
    requires field == SignExtend32(And(value, mask), b) && next == Sar(value, b)
    ensures Placed(r, s[at + j := field], at, Group(v, b, j + 1)) && next == ShiftedBy(v, b, j + 1)
  {
    FieldCongruent(v, b, j, value, mask, And(value, mask));
    GroupNext(v, b, j);
    PlaceNext(r, s, at, Group(v, b, j), field);
  }

  /** The inner loop of `decodeHuffmanValues`: count fields of one value, written from `at` on. */
  method SplitValue(r: seq<int>, at: nat, v: int, b: int, count: nat) returns (s: seq<int>)
    requires at + count <= |r|
    ensures Placed(r, s, at, Group(v, b, count))
  {
    var mask := Shl(1, b) - 1;
    var value := v;
    s := r;
    var j := 0;
    while j < count
      invariant 0 <= j <= count && value == ShiftedBy(v, b, j) && Placed(r, s, at, Group(v, b, j))
    {
      var field := SignExtend32(And(value, mask), b);
      var next := Sar(value, b);
      SplitStep(r, s, at, v, b, j, value, mask, field, next);
      s := s[at + j := field];
      value := next;
      j := j + 1;
    }
  }

  /** Unpacking one more group appends that group's coefficients. */
  lemma UnpackedStep(values: seq<int>, g: nat, b: int, count: nat)
    requires g < |values|
    ensures Unpacked(values, g + 1, b, count) == Unpacked(values, g, b, count) + Group(values[g], b, count)
  {
  }

  lemma PlaceAfter(base: seq<int>, r: seq<int>, s: seq<int>, at: nat, p: seq<int>, grp: seq<int>)
    requires Placed(base, r, at, p) && Placed(r, s, at + |p|, grp)
    ensures Placed(base, s, at, p + grp)
  {
  }

  /** What is placed is the splice. */
  lemma Spliced(base: seq<int>, s: seq<int>, at: nat, g: seq<int>)
    requires Placed(base, s, at, g)
    ensures s == base[..at] + g + base[at + |g|..]
  {
  }

  /** One pass of the outer loop of `decodeHuffmanValues`: value i written at index + i * count. */
  method WriteGroup(spectrum: seq<int>, index: nat, r: seq<int>, values: seq<int>, i: nat, b: int, count: nat)
    returns (s: seq<int>)
    requires i < |values| && Placed(spectrum, r, index, Unpacked(values, i, b, count))
    requires index + (i + 1) * count <= |r|
    ensures Placed(spectrum, s, index, Unpacked(values, i + 1, b, count))
  {
    ghost var p := Unpacked(values, i, b, count);
    assert (i + 1) * count == i * count + count;
    s := SplitValue(r, index + i * count, values[i], b, count);
    PlaceAfter(spectrum, r, s, index, p, Group(values[i], b, count));
    UnpackedStep(values, i, b, count);
  }

  /** `decodeHuffmanValues`: splits bandCount >> ValueCountPower values into ValueCount coefficients each. */
  method DecodeHuffmanValues(spectrum: seq<int>, index: nat, bandCount: int, h: HuffmanCodebook, values: seq<int>)
    returns (r: seq<int>)
    requires 0 <= h.ValueCount && 0 <= Sar(bandCount, h.ValueCountPower) <= |values|
    requires index + Sar(bandCount, h.ValueCountPower) * h.ValueCount <= |spectrum|
    ensures var u := Unpacked(values, Sar(bandCount, h.ValueCountPower), h.ValueBits, h.ValueCount);
      r == spectrum[..index] + u + spectrum[index + |u|..]
  {
    var valueCount := Sar(bandCount, h.ValueCountPower);
    var count: nat := h.ValueCount;
    var b := h.ValueBits;
    r := spectrum;
    var i := 0;
    while i < valueCount
      invariant 0 <= i <= valueCount && Placed(spectrum, r, index, Unpacked(values, i, b, count))
    {
      MulLeft(i + 1, valueCount, count);
      r := WriteGroup(spectrum, index, r, values, i, b, count);
      i := i + 1;
    }
    Spliced(spectrum, r, index, Unpacked(values, valueCount, b, count));
  }
}
