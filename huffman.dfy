/**
 * Huffman codebooks and the flat lookup table that decodes them: one slot for every
 * MaxBitSize-bit window, holding the symbol whose code begins the window.
 */
module Huffman {
  import opened JsInt
  import opened Wrappers

  datatype HuffmanCodebook = HuffmanCodebook(
    Codes: seq<int>,
    Bits: seq<int>,
    ValueCount: int,
    ValueCountPower: int,
    ValueBits: int,
    ValueMax: int,
    MaxBitSize: int,
    Lookup: seq<int>)

  /**
   * Code tables the lookup table can lay out: one code per symbol, code lengths of 0 to 30 bits
   * (0 meaning the symbol has no code) and each code fitting its length.
   */
  predicate CodeTables(codes: seq<int>, bits: seq<int>)
  {
    |codes| == |bits| &&
    forall i :: 0 <= i < |bits| ==> 0 <= bits[i] <= 30 && 0 <= codes[i] < Pow2(bits[i])
  }

  /** No code is a prefix of another. */
  predicate PrefixFree(codes: seq<int>, bits: seq<int>)
    requires CodeTables(codes, bits)
  {
    forall i, k :: 0 <= i < |bits| && 0 <= k < |bits| && i != k && 0 < bits[i] <= bits[k] ==>
      codes[k] / Pow2(bits[k] - bits[i]) != codes[i]
  }

  /** `Math.max` folded over the bit lengths, starting from 0. */
  function MaxOf(bits: seq<int>): int
  {
    if |bits| == 0 then 0 else Max(MaxOf(bits[..|bits| - 1]), bits[|bits| - 1])
  }

  /** The fold is the largest bit length, or 0 when there is none larger. */
  lemma {:induction false} MaxOfIsMaximum(bits: seq<int>)
    ensures MaxOf(bits) >= 0
    ensures forall i :: 0 <= i < |bits| ==> bits[i] <= MaxOf(bits)
    ensures MaxOf(bits) == 0 || exists i :: 0 <= i < |bits| && bits[i] == MaxOf(bits)
  {
    if |bits| > 0 {
      var front := bits[..|bits| - 1];
      MaxOfIsMaximum(front);
      assert forall i :: 0 <= i < |front| ==> bits[i] == front[i];
    }
  }

  /** `Math.log2(n)` truncated toward zero, for n >= 1. */
  function Log2Floor(n: nat): nat
    requires n >= 1
  {
    if n < 2 then 0 else 1 + Log2Floor(n / 2)
  }

  lemma {:induction false} Log2FloorBounds(n: nat)
    requires n >= 1
    ensures Pow2(Log2Floor(n)) <= n < Pow2(Log2Floor(n) + 1)
  {
    if n >= 2 {
      Log2FloorBounds(n / 2);
    }
  }

  /** `Math.log2(length) >> valueCountPower`; `Math.log2(0)` is minus infinity, which the shift takes as 0. */
  function ValueBitsOf(length: nat, valueCountPower: int): int
  {
    if length == 0 then 0 else Sar(Log2Floor(length), valueCountPower)
  }

  /** For a non-empty code table and a power below 32, the value width is the logarithm divided by 2^power. */
  lemma ValueBitsDivides(length: nat, valueCountPower: nat)
    requires 1 <= length < TWO_31 && valueCountPower < 32
    ensures ValueBitsOf(length, valueCountPower) == Log2Floor(length) / Pow2(valueCountPower)
  {
    var l := Log2Floor(length);
    Log2FloorBelow(length);
    SarNonNegative(l, valueCountPower);
  }

  lemma {:induction false} Log2FloorBelow(n: nat)
    requires n >= 1
    ensures Log2Floor(n) < n
  {
    if n >= 2 {
      Log2FloorBelow(n / 2);
    }
  }

  // ---------------------------------------------------------------------------
  // The lookup table.

  /**
   * Symbol i fills the slots of the maxBits-bit windows that begin with its code: the windows
   * from Codes[i] * 2^(maxBits - Bits[i]) up to, but excluding, (Codes[i] + 1) * 2^(maxBits - Bits[i]).
   */
  predicate Covers(codes: seq<int>, bits: seq<int>, maxBits: int, i: nat, j: int)
    requires i < |codes| && i < |bits|
  {
    0 < bits[i] <= maxBits &&
    codes[i] * Pow2(maxBits - bits[i]) <= j < (codes[i] + 1) * Pow2(maxBits - bits[i])
  }

  /** The last of the first n symbols that fills slot j, or 0 when none does: later symbols overwrite earlier ones. */
  function Owner(codes: seq<int>, bits: seq<int>, maxBits: int, j: int, n: nat): int
    requires n <= |codes| && n <= |bits|
  {
    if n == 0 then 0
    else if Covers(codes, bits, maxBits, n - 1, j) then n - 1
    else Owner(codes, bits, maxBits, j, n - 1)
  }

  /** The slot of a symbol whose code is c and whose length is b within a maxBits-bit window. */
  lemma CodeRange(c: int, b: int, maxBits: int, unused: nat, start: int, end: int)
    requires 0 < b <= maxBits <= 30 && 0 <= c < Pow2(b) && unused == maxBits - b
    requires start == c * Pow2(unused) && end == start + Pow2(unused)
    ensures 0 <= start < end <= Pow2(maxBits) && end == (c + 1) * Pow2(unused)
    ensures Pow2(maxBits) < TWO_31
  {
    var p := Pow2(unused);
    var q := Pow2(b);
    MulDist(c, 1, p);
    MulLeft(0, c, p);
    MulLeft(c + 1, q, p);
    var whole := b + unused;
    assert whole == maxBits;
    Pow2Add(b, unused);
    assert Pow2(maxBits) == q * p;
    Pow2BelowWord(maxBits);
  }

  /** Writes value into slots [start, end) of the table. */
  method FillSlots(table: array<int>, start: nat, end: nat, value: int)
    requires start <= end <= table.Length
    modifies table
    ensures forall j :: 0 <= j < table.Length ==> table[j] == if start <= j < end then value else old(table[j])
  {
    var j: nat := start;
    while j < end
      invariant start <= j <= end
      invariant forall k :: 0 <= k < table.Length ==> table[k] == if start <= k < j then value else old(table[k])
    {
      table[j] := value;
      j := j + 1;
    }
  }

  /** `createLookupTable`: a zero-filled table of 2^maxBits slots, filled symbol by symbol in index order. */
  method CreateLookupTable(codes: seq<int>, bits: seq<int>, maxBits: int) returns (lookup: seq<int>)
    requires CodeTables(codes, bits) && maxBits == MaxOf(bits)
    ensures |lookup| == Pow2(maxBits)
    ensures forall j :: 0 <= j < |lookup| ==> lookup[j] == Owner(codes, bits, maxBits, j, |bits|)
  {
    MaxOfIsMaximum(bits);
    var top: nat := maxBits;
    var tableSize := Shl(1, top);
    ShlOne(top);
    var dest := new int[tableSize](_ => 0);
    var i: nat := 0;
    while i < |bits|
      invariant i <= |bits| && dest.Length == Pow2(maxBits)
      invariant forall j :: 0 <= j < dest.Length ==> dest[j] == Owner(codes, bits, maxBits, j, i)
    {
      PlaceSymbol(dest, codes, bits, maxBits, i);
      i := i + 1;
    }
    lookup := dest[..];
  }

  /** One pass of the outer loop: symbol i, when it has a code, overwrites the slots its code begins. */
  method PlaceSymbol(dest: array<int>, codes: seq<int>, bits: seq<int>, maxBits: int, i: nat)
    requires CodeTables(codes, bits) && i < |bits| && bits[i] <= maxBits <= 30 && dest.Length == Pow2(maxBits)
    modifies dest
    ensures forall j :: 0 <= j < dest.Length ==> dest[j] == if Covers(codes, bits, maxBits, i, j) then i else old(dest[j])
  {
    if bits[i] != 0 {
      var unusedBits := maxBits - bits[i];
      var start := Shl(codes[i], unusedBits);
      var length := Shl(1, unusedBits);
      var end: int := start as int + length;
      SymbolSlots(codes, bits, maxBits, i, unusedBits, start, length, end);
      FillSlots(dest, start, end, i);
    }
  }

  /** The shifts of the source compute the symbol's slot range exactly. */
  lemma SymbolSlots(codes: seq<int>, bits: seq<int>, maxBits: int, i: nat, unused: int, start: int, length: int, end: int)
    requires CodeTables(codes, bits) && i < |bits| && 0 < bits[i] <= maxBits <= 30 && unused == maxBits - bits[i]
    requires start == Shl(codes[i], unused) && length == Shl(1, unused) && end == start + length
    ensures 0 <= start <= end <= Pow2(maxBits)
    ensures forall j :: Covers(codes, bits, maxBits, i, j) <==> start <= j < end
  {
    var c, b := codes[i], bits[i];
    var p := Pow2(unused);
    var s := c * p;
    CodeRange(c, b, maxBits, unused, s, s + p);
    ShlOne(unused);
    ShlNonNegative(c, unused);
    assert start == s && end == s + p;
    assert Pow2(maxBits - bits[i]) == p;
  }

  // ---------------------------------------------------------------------------
  // What the table holds.

  /**
   * A slot that some symbol fills belongs to the last symbol that fills it; a slot no symbol
   * fills keeps the 0 it started with. Symbols without a code fill nothing.
   */
  lemma {:induction false} OwnerIsLastCover(codes: seq<int>, bits: seq<int>, maxBits: int, j: int, n: nat)
    requires n <= |codes| && n <= |bits|
    ensures (exists i :: 0 <= i < n && Covers(codes, bits, maxBits, i, j)) ==>
      var o := Owner(codes, bits, maxBits, j, n);
      0 <= o < n && Covers(codes, bits, maxBits, o, j) &&
      forall k :: o < k < n ==> !Covers(codes, bits, maxBits, k, j)
    ensures (forall i :: 0 <= i < n ==> !Covers(codes, bits, maxBits, i, j)) ==> Owner(codes, bits, maxBits, j, n) == 0
  {
    if n > 0 {
      OwnerIsLastCover(codes, bits, maxBits, j, n - 1);
    }
  }

  /** The table never names a symbol past the end of the code table. */
  lemma {:induction false} OwnerInRange(codes: seq<int>, bits: seq<int>, maxBits: int, j: int, n: nat)
    requires 1 <= n <= |codes| && n <= |bits|
    ensures 0 <= Owner(codes, bits, maxBits, j, n) < n
  {
    if n > 1 {
      OwnerInRange(codes, bits, maxBits, j, n - 1);
    }
  }

  /** A filled slot's index begins with the code of the symbol that fills it. */
  lemma CoverIsPrefix(codes: seq<int>, bits: seq<int>, maxBits: int, i: nat, j: int)
    requires i < |codes| && i < |bits| && Covers(codes, bits, maxBits, i, j)
    ensures j / Pow2(maxBits - bits[i]) == codes[i]
  {
    var p := Pow2(maxBits - bits[i]);
    DivModUnique(j, p, codes[i], j - codes[i] * p);
  }

  lemma DivDiv(j: int, a: int, b: int)
    requires j >= 0 && a > 0 && b > 0
    ensures j / (a * b) == (j / a) / b
  {
    var q1, r1 := j / a, j % a;
    var q2, r2 := q1 / b, q1 % b;
    assert j == (q2 * b + r2) * a + r1;
    MulAssoc(q2, b, a);
    MulDist(q2 * b, r2, a);
    assert r2 * a + r1 < a * b by {
      MulLeft(r2, b - 1, a);
      MulDist(b, 1, a);
    }
    assert j == q2 * (a * b) + (r2 * a + r1);
    DivModUnique(j, a * b, q2, r2 * a + r1);
  }

  /** With prefix-free codes no two symbols fill the same slot. */
  lemma CoversDisjoint(codes: seq<int>, bits: seq<int>, maxBits: int, i: nat, k: nat, j: int)
    requires CodeTables(codes, bits) && PrefixFree(codes, bits)
    requires i < |bits| && k < |bits| && i != k
    ensures !(Covers(codes, bits, maxBits, i, j) && Covers(codes, bits, maxBits, k, j))
  {
    if Covers(codes, bits, maxBits, i, j) && Covers(codes, bits, maxBits, k, j) {
      if bits[i] <= bits[k] {
        ShorterCodeIsPrefix(codes, bits, maxBits, i, k, j);
      } else {
        ShorterCodeIsPrefix(codes, bits, maxBits, k, i, j);
      }
    }
  }

  /** When a short and a long code fill the same slot, the short one is a prefix of the long one. */
  lemma ShorterCodeIsPrefix(codes: seq<int>, bits: seq<int>, maxBits: int, i: nat, k: nat, j: int)
    requires CodeTables(codes, bits)
    requires i < |bits| && k < |bits| && bits[i] <= bits[k]
    requires Covers(codes, bits, maxBits, i, j) && Covers(codes, bits, maxBits, k, j)
    ensures codes[k] / Pow2(bits[k] - bits[i]) == codes[i]
  {
    CoverIsPrefix(codes, bits, maxBits, i, j);
    CoverIsPrefix(codes, bits, maxBits, k, j);
    var a, b := Pow2(maxBits - bits[k]), Pow2(bits[k] - bits[i]);
    Pow2Add(maxBits - bits[k], bits[k] - bits[i]);
    assert maxBits - bits[k] + (bits[k] - bits[i]) == maxBits - bits[i];
    DivDiv(j, a, b);
  }

  /** With prefix-free codes every slot a symbol's code begins belongs to that symbol. */
  lemma {:induction false} PrefixFreeOwner(codes: seq<int>, bits: seq<int>, maxBits: int, i: nat, j: int, n: nat)
    requires CodeTables(codes, bits) && PrefixFree(codes, bits)
    requires i < n <= |bits| && Covers(codes, bits, maxBits, i, j)
    ensures Owner(codes, bits, maxBits, j, n) == i
  {
    if n - 1 != i {
      CoversDisjoint(codes, bits, maxBits, i, n - 1, j);
      PrefixFreeOwner(codes, bits, maxBits, i, j, n - 1);
    }
  }

  // ---------------------------------------------------------------------------
  // The constructor.

  datatype CodebookError = CodesOrBitsMissing

  /** The constructor: the null check, the derived counts, the largest length and the lookup table. */
  method NewHuffmanCodebook(codes: Option<seq<int>>, bits: Option<seq<int>>, valueCountPower: int)
    returns (r: Result<HuffmanCodebook, CodebookError>)
    requires codes.Some? && bits.Some? ==> CodeTables(codes.value, bits.value)
    ensures r.Failure? <==> codes.None? || bits.None?
    ensures r.Success? ==> BuiltFrom(r.value, codes.value, bits.value, valueCountPower)
  {
    if codes.None? || bits.None? {
      return Failure(CodesOrBitsMissing);
    }
    var c, b := codes.value, bits.value;
    var valueCount := Shl(1, valueCountPower);
    var valueBits := ValueBitsOf(|c|, valueCountPower);
    var valueMax := Shl(1, valueBits);
    var max := LargestBitSize(b);
    var lookup := CreateLookupTable(c, b, max);
    return Success(HuffmanCodebook(c, b, valueCount, valueCountPower, valueBits, valueMax, max, lookup));
  }

  /** The loop over the bit lengths keeping the running maximum. */
  method LargestBitSize(bits: seq<int>) returns (max: int)
    ensures max == MaxOf(bits)
  {
    max := 0;
    var k: nat := 0;
    while k < |bits|
      invariant k <= |bits| && max == MaxOf(bits[..k])
    {
      assert bits[..k + 1][..k] == bits[..k];
      max := Max(max, bits[k]);
      k := k + 1;
    }
    assert bits[..k] == bits;
  }

  /** The codebook the constructor builds from these tables. */
  predicate BuiltFrom(h: HuffmanCodebook, codes: seq<int>, bits: seq<int>, valueCountPower: int)
  {
    h.Codes == codes && h.Bits == bits && h.ValueCountPower == valueCountPower &&
    h.ValueCount == Shl(1, valueCountPower) && h.ValueBits == ValueBitsOf(|codes|, valueCountPower) &&
    h.ValueMax == Shl(1, h.ValueBits) && h.MaxBitSize == MaxOf(bits) && h.MaxBitSize >= 0 &&
    |h.Lookup| == Pow2(h.MaxBitSize) && |codes| == |bits| &&
    forall j :: 0 <= j < |h.Lookup| ==> h.Lookup[j] == Owner(codes, bits, h.MaxBitSize, j, |bits|)
  }

  /**
   * A codebook the decoder can read with: a non-empty prefix-free code table of at most 17-bit
   * codes whose lookup table was built from it.
   */
  predicate ValidCodebook(h: HuffmanCodebook)
  {
    CodeTables(h.Codes, h.Bits) && PrefixFree(h.Codes, h.Bits) && |h.Bits| >= 1 &&
    BuiltFrom(h, h.Codes, h.Bits, h.ValueCountPower) && h.MaxBitSize <= 17 &&
    forall j :: 0 <= j < |h.Lookup| ==> 0 <= h.Lookup[j] < |h.Bits|
  }

  /** A codebook built from a non-empty prefix-free table of at most 17-bit codes is one the decoder can use. */
  lemma BuiltIsValid(h: HuffmanCodebook, codes: seq<int>, bits: seq<int>, valueCountPower: int)
    requires CodeTables(codes, bits) && PrefixFree(codes, bits) && |bits| >= 1
    requires BuiltFrom(h, codes, bits, valueCountPower) && MaxOf(bits) <= 17
    ensures ValidCodebook(h)
  {
    forall j | 0 <= j < |h.Lookup|
      ensures 0 <= h.Lookup[j] < |h.Bits|
    {
      OwnerInRange(codes, bits, h.MaxBitSize, j, |bits|);
    }
  }

  /**
   * In a valid codebook each slot names the symbol whose code begins the slot's window, when there
   * is one: every window that begins with symbol i's code holds i.
   */
  lemma LookupDecodes(h: HuffmanCodebook, i: nat, j: int)
    requires ValidCodebook(h) && i < |h.Bits| && Covers(h.Codes, h.Bits, h.MaxBitSize, i, j)
    ensures 0 <= j < |h.Lookup| && h.Lookup[j] == i
    ensures j / Pow2(h.MaxBitSize - h.Bits[i]) == h.Codes[i]
  {
    MaxOfIsMaximum(h.Bits);
    CodeRange(h.Codes[i], h.Bits[i], h.MaxBitSize, h.MaxBitSize - h.Bits[i], h.Codes[i] * Pow2(h.MaxBitSize - h.Bits[i]),
      h.Codes[i] * Pow2(h.MaxBitSize - h.Bits[i]) + Pow2(h.MaxBitSize - h.Bits[i]));
    PrefixFreeOwner(h.Codes, h.Bits, h.MaxBitSize, i, j, |h.Bits|);
    CoverIsPrefix(h.Codes, h.Bits, h.MaxBitSize, i, j);
  }
}
