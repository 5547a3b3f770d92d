/**
 * The bit string a byte buffer denotes when read most-significant bit first, with every
 * position past the end reading as zero. This is the meaning the bit reader's peeks are
 * proved against.
 */
module BitStream {
  import opened JsInt

  /** Byte i of the buffer, or 0 past its end (an out-of-range typed-array read, coerced by `&`). */
  function ByteAt(data: seq<byte>, i: nat): (r: byte)
    ensures i < |data| ==> r == data[i]
  {
    if i < |data| then data[i] else 0
  }

  /** The eight bits of a byte, most significant first. */
  function ByteBits(b: byte): (s: seq<bool>)
    ensures |s| == 8
  {
    seq(8, i requires 0 <= i < 8 => BitAt(b, 7 - i) == 1)
  }

  /** The bits of the whole buffer, in stream order. */
  function StreamBits(data: seq<byte>): (s: seq<bool>)
    ensures |s| == 8 * |data|
    decreases |data|
  {
    if |data| == 0 then [] else ByteBits(data[0]) + StreamBits(data[1..])
  }

  /** Bit p of a bit string as a number, 0 past its end. */
  function BitIn(s: seq<bool>, p: nat): (r: nat)
  {
    if p < |s| && s[p] then 1 else 0
  }

  /** The n bits of s starting at pos as an unsigned integer, first bit most significant. */
  function Value(s: seq<bool>, pos: nat, n: nat): nat
    decreases n
  {
    if n == 0 then 0 else 2 * Value(s, pos, n - 1) + BitIn(s, pos + n - 1)
  }

  /** The n bits of the buffer's stream starting at bit pos. */
  function Bits(data: seq<byte>, pos: nat, n: nat): nat
  {
    Value(StreamBits(data), pos, n)
  }

  lemma {:induction false} ValueBound(s: seq<bool>, pos: nat, n: nat)
    ensures Value(s, pos, n) < Pow2(n)
  {
    if n > 0 {
      ValueBound(s, pos, n - 1);
    }
  }

  /** Reading a + b bits is reading a bits, then b more below them. */
  lemma {:induction false} ValueSplit(s: seq<bool>, pos: nat, a: nat, b: nat)
    ensures Value(s, pos, a + b) == Value(s, pos, a) * Pow2(b) + Value(s, pos + a, b)
    decreases b
  {
    if b > 0 {
      ValueSplit(s, pos, a, b - 1);
      SplitStep(Value(s, pos, a), Value(s, pos + a, b - 1), BitIn(s, pos + a + b - 1), Pow2(b - 1));
    }
  }

  lemma SplitStep(x: int, y: int, bit: int, p: int)
    ensures 2 * (x * p + y) + bit == x * (2 * p) + (2 * y + bit)
  {
  }

  /** Every position past the end reads as zero. */
  lemma {:induction false} ValuePastEnd(s: seq<bool>, pos: nat, n: nat)
    requires pos >= |s|
    ensures Value(s, pos, n) == 0
  {
    if n > 0 {
      ValuePastEnd(s, pos, n - 1);
    }
  }

  /** Reading past the end pads with zeros: the bits present, shifted up by the missing count. */
  lemma ZeroPadding(s: seq<bool>, pos: nat, r: nat, n: nat)
    requires r <= n && pos + r >= |s|
    ensures Value(s, pos, n) == Value(s, pos, r) * Pow2(n - r)
  {
    ValueSplit(s, pos, r, n - r);
    ValuePastEnd(s, pos + r, n - r);
  }

  /** n bits from offset o inside a w-bit window are that window's value cut to its low w - o bits, shifted down. */
  lemma ValueWindow(s: seq<bool>, base: nat, w: nat, o: nat, n: nat)
    requires o + n <= w
    ensures Value(s, base + o, n) == (Value(s, base, w) % Pow2(w - o)) / Pow2(w - o - n)
  {
    LowPart(s, base, o, w - o, w);
    HighPart(s, base + o, n, w - o - n, w - o);
  }

  /** The low b of a + b bits are the last b bits read. */
  lemma LowPart(s: seq<bool>, pos: nat, a: nat, b: nat, total: nat)
    requires total == a + b
    ensures Value(s, pos, total) % Pow2(b) == Value(s, pos + a, b)
  {
    ValueSplit(s, pos, a, b);
    ValueBound(s, pos + a, b);
    DivModUnique(Value(s, pos, total), Pow2(b), Value(s, pos, a), Value(s, pos + a, b));
  }

  /** Dropping the low b of a + b bits leaves the first a bits read. */
  lemma HighPart(s: seq<bool>, pos: nat, a: nat, b: nat, total: nat)
    requires total == a + b
    ensures Value(s, pos, total) / Pow2(b) == Value(s, pos, a)
  {
    ValueSplit(s, pos, a, b);
    ValueBound(s, pos + a, b);
    DivModUnique(Value(s, pos, total), Pow2(b), Value(s, pos, a), Value(s, pos + a, b));
  }

  // ---------------------------------------------------------------------------
  // The stream of a byte buffer.

  lemma {:induction false} StreamBit(data: seq<byte>, k: nat, j: nat)
    requires k < |data| && j < 8
    ensures BitIn(StreamBits(data), 8 * k + j) == BitAt(data[k], 7 - j)
  {
    if k > 0 {
      StreamBit(data[1..], k - 1, j);
      assert StreamBits(data)[8 * k + j] == StreamBits(data[1..])[8 * (k - 1) + j];
    }
  }

  /** Byte k of the bit string s spells out d, most significant bit first. */
  ghost predicate ByteIn(s: seq<bool>, k: nat, d: byte)
  {
    forall j :: 0 <= j < 8 ==> OfByte(s, k, j) == BitAt(d, 7 - j)
  }

  /** Bit j of byte k of a bit string. */
  function OfByte(s: seq<bool>, k: nat, j: nat): nat
  {
    BitIn(s, 8 * k + j)
  }

  lemma StreamByte(data: seq<byte>, k: nat)
    requires k < |data|
    ensures ByteIn(StreamBits(data), k, data[k])
  {
    forall j | 0 <= j < 8
      ensures OfByte(StreamBits(data), k, j) == BitAt(data[k], 7 - j)
    {
      StreamBit(data, k, j);
    }
  }

  /** The first t bits of a byte are its t high bits. */
  lemma {:induction false} ValueOfByte(s: seq<bool>, k: nat, d: byte, t: nat)
    requires ByteIn(s, k, d) && t <= 8
    ensures Value(s, 8 * k, t) == d / Pow2(8 - t)
  {
    if t == 0 {
      DivModUnique(d, Pow2(8), 0, d) by { Pow2Word(8); }
    } else {
      ValueOfByte(s, k, d, t - 1);
      assert OfByte(s, k, t - 1) == BitAt(d, 7 - (t - 1));
      var h := d / Pow2(8 - t);
      BitAtDiv(d, 8 - t, 0);
      DivHalf(d, Pow2(8 - t));
      assert d / Pow2(8 - (t - 1)) == h / 2 by {
        assert Pow2(8 - (t - 1)) == 2 * Pow2(8 - t);
        DivTwice(d, Pow2(8 - t));
      }
      assert h == 2 * (h / 2) + h % 2;
    }
  }

  lemma DivTwice(x: int, p: int)
    requires p > 0
    ensures x / (2 * p) == x / p / 2
  {
    var q, r := x / p, x % p;
    var q2, r2 := q / 2, q % 2;
    assert x == q2 * (2 * p) + (r2 * p + r) by {
      assert q == 2 * q2 + r2;
      assert q * p == q2 * (2 * p) + r2 * p;
    }
    assert r2 * p + r < 2 * p by {
      MulLeft(r2, 1, p);
    }
    DivModUnique(x, 2 * p, q2, r2 * p + r);
  }

  lemma WholeByte(s: seq<bool>, k: nat, d: byte)
    requires ByteIn(s, k, d)
    ensures Value(s, 8 * k, 8) == d
  {
    ValueOfByte(s, k, d, 8);
    assert Pow2(8 - 8) == 1;
    DivModUnique(d, 1, d, 0);
  }

  /**
   * One more whole byte after m whole bytes from byte k: the a = 8m bits read so far, v,
   * shift up by a byte. The positions and widths are parameters so that callers match them
   * term for term.
   */
  lemma AppendByte(s: seq<bool>, k: nat, m: nat, d: byte, pos: nat, a: nat, b: nat, v: int)
    requires ByteIn(s, k + m, d) && pos == 8 * k && a == 8 * m && b == a + 8 && v == Value(s, pos, a)
    ensures Value(s, pos, b) == v * 0x100 + d
  {
    var next, w := 8 * (k + m), 8;
    WholeByteAt(s, k + m, next, w, d);
    AppendValue(s, pos, a, b, next, w, d);
  }

  /** WholeByte with the width as a parameter, so that callers see no literal width. */
  lemma WholeByteAt(s: seq<bool>, k: nat, pos: nat, w: nat, d: byte)
    requires pos == 8 * k && w == 8 && ByteIn(s, k, d)
    ensures Value(s, pos, w) == d
  {
    WholeByte(s, k, d);
  }

  lemma AppendValue(s: seq<bool>, pos: nat, a: nat, b: nat, next: nat, w: nat, d: nat)
    requires next == pos + a && w == 8 && b == a + w && Value(s, next, w) == d
    ensures Value(s, pos, b) == Value(s, pos, a) * 0x100 + d
  {
    SplitOff(s, pos, a, b, next, w, d);
    Pow2Word(w);
    ScaleByByte(Value(s, pos, b), Value(s, pos, a), d, Pow2(w));
  }

  lemma SplitOff(s: seq<bool>, pos: nat, a: nat, b: nat, next: nat, w: nat, d: nat)
    requires next == pos + a && b == a + w && Value(s, next, w) == d
    ensures Value(s, pos, b) == Value(s, pos, a) * Pow2(w) + d
  {
    ValueSplit(s, pos, a, w);
  }

  lemma ScaleByByte(whole: int, high: int, low: int, p: int)
    requires whole == high * p + low && p == 0x100
    ensures whole == high * 0x100 + low
  {
  }

  /** Two, three and four whole bytes from byte k read as those bytes, big-endian. */
  lemma Bytes16(data: seq<byte>, k: nat)
    requires k + 2 <= |data|
    ensures Bits(data, 8 * k, 16) == (data[k] as int) * 0x100 + data[k + 1]
  {
    StreamByte(data, k);
    StreamByte(data, k + 1);
    Value16(StreamBits(data), k, data[k], data[k + 1]);
  }

  lemma Value16(s: seq<bool>, k: nat, d0: byte, d1: byte)
    requires ByteIn(s, k, d0) && ByteIn(s, k + 1, d1)
    ensures Value(s, 8 * k, 16) == (d0 as int) * 0x100 + d1
  {
    var pos := 8 * k;
    AppendByte(s, k, 0, d0, pos, 0, 8, 0);
    AppendByte(s, k, 1, d1, pos, 8, 16, d0);
  }

  lemma Value24(s: seq<bool>, k: nat, d0: byte, d1: byte, d2: byte)
    requires ByteIn(s, k, d0) && ByteIn(s, k + 1, d1) && ByteIn(s, k + 2, d2)
    ensures Value(s, 8 * k, 24) == (d0 as int) * 0x1_0000 + (d1 as int) * 0x100 + d2
  {
    Value16(s, k, d0, d1);
    AppendByte(s, k, 2, d2, 8 * k, 16, 24, (d0 as int) * 0x100 + d1);
  }

  lemma Value32(s: seq<bool>, k: nat, d0: byte, d1: byte, d2: byte, d3: byte, sum: int)
    requires ByteIn(s, k, d0) && ByteIn(s, k + 1, d1) && ByteIn(s, k + 2, d2) && ByteIn(s, k + 3, d3)
    requires sum == (d0 as int) * 0x100_0000 + (d1 as int) * 0x1_0000 + (d2 as int) * 0x100 + d3
    ensures Value(s, 8 * k, 32) == sum
  {
    Value24(s, k, d0, d1, d2);
    var v := (d0 as int) * 0x1_0000 + (d1 as int) * 0x100 + d2;
    AppendByte(s, k, 3, d3, 8 * k, 24, 32, v);
    assert sum == v * 0x100 + d3;
  }

  lemma Bytes24(data: seq<byte>, k: nat)
    requires k + 3 <= |data|
    ensures Bits(data, 8 * k, 24) == (data[k] as int) * 0x1_0000 + (data[k + 1] as int) * 0x100 + data[k + 2]
  {
    StreamByte(data, k);
    StreamByte(data, k + 1);
    StreamByte(data, k + 2);
    Value24(StreamBits(data), k, data[k], data[k + 1], data[k + 2]);
  }

  lemma Bytes32(data: seq<byte>, k: nat)
    requires k + 4 <= |data|
    ensures Bits(data, 8 * k, 32) == (data[k] as int) * 0x100_0000 + (data[k + 1] as int) * 0x1_0000 + (data[k + 2] as int) * 0x100 + data[k + 3]
  {
    StreamByte(data, k);
    StreamByte(data, k + 1);
    StreamByte(data, k + 2);
    StreamByte(data, k + 3);
    Value32(StreamBits(data), k, data[k], data[k + 1], data[k + 2], data[k + 3],
      (data[k] as int) * 0x100_0000 + (data[k + 1] as int) * 0x1_0000 + (data[k + 2] as int) * 0x100 + data[k + 3]);
  }

  /** Past the end of a bit string every byte reads as zero. */
  lemma ByteInPastEnd(s: seq<bool>, k: nat)
    requires 8 * k >= |s|
    ensures ByteIn(s, k, 0)
  {
    forall j | 0 <= j < 8
      ensures OfByte(s, k, j) == BitAt(0, 7 - j)
    {
      BitAtOfZero(7 - j);
    }
  }
}
