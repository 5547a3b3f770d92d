/**
 * The per-channel spectrum stages of the block grammar: which units use the second set of
 * spectrum codebooks, the quantized coefficients (Huffman-coded groups or fixed-width signed
 * fields per unit), and the fixed-width reading of units whose precision overflowed, which
 * the low-frequency-effects block (module `BlockUnpacking`) reuses for its coefficients.
 */
module Spectra {
  import opened JsInt
  import opened Wrappers
  import opened Tables
  import opened RuntimeTables
  import opened Huffman
  import opened BitReading
  import opened UnpackHuffman
  import opened DecodeState
  import SF = ScaleFactorReading
  import U = Unpacking

  // ---------------------------------------------------------------------------------------------
  // Codebook sets

  function Sum(s: seq<int>): int
  {
    if s == [] then 0 else Sum(s[..|s| - 1]) + s[|s| - 1]
  }

  /** A factor at least 3 above its lower neighbour, or 3 above both neighbours taken together. */
  predicate Peaked(s: seq<int>, i: nat)
    requires 1 <= i && i + 1 < |s|
  {
    s[i] - Min(s[i - 1], s[i + 1]) >= 3 || s[i] - s[i - 1] + s[i] - s[i + 1] >= 3
  }

  /** A factor 2 above its lower neighbour and not below the average (less one for 16-bin units). */
  predicate Raised(s: seq<int>, i: nat, average: int)
    requires 1 <= i && i + 1 < |s| && i < QUANT_UNIT_COUNT
  {
    s[i] - Min(s[i - 1], s[i + 1]) >= 2 && s[i] >= average - (if UnitSize(i) == 16 then 1 else 0)
  }

  /** Unit i of q coded units takes the second codebook set: peaked from unit 8 on, or raised from unit 12 on. */
  predicate Selected(s: seq<int>, i: nat, q: int, average: int)
    requires |s| == SCALE_FACTOR_SLOTS && i < UNIT_SLOTS
  {
    (8 <= i < q && Peaked(s, i)) || (12 <= i < q && Raised(s, i, average))
  }

  /** The rounded mean of the first twelve factors, over coded unit counts above 12; 0 otherwise. */
  function Average(s: seq<int>, q: int): int
    requires |s| >= 12
  {
    if q > 12 then (Sum(s[..12]) + 6) / 12 else 0
  }

  /**
   * `calculateSpectrumCodebookIndex`. Nothing is selected for one coded unit or none (an
   * unassigned count compares false), nor at the high sample rates. Otherwise the factor past
   * the last coded unit is taken as equal to the last one while the units are compared with
   * their neighbours.
   */
  function CodebookSelection(sf: seq<int>, units: Option<int>, highSampleRate: bool): (r: seq<int>)
    requires |sf| == SCALE_FACTOR_SLOTS && (units.Some? ==> units.value <= UNIT_SLOTS)
    ensures |r| == UNIT_SLOTS
    ensures forall i :: 0 <= i < UNIT_SLOTS ==> r[i] == 0 || r[i] == 1
    ensures forall i :: 0 <= i < UNIT_SLOTS && r[i] == 1 ==>
      units.Some? && 8 <= i < units.value && !highSampleRate
  {
    if units.None? || units.value <= 1 || highSampleRate then ZeroFill(UNIT_SLOTS)
    else
      var q := units.value;
      var s := sf[q := sf[q - 1]];
      var average := Average(s, q);
      seq(UNIT_SLOTS, i requires 0 <= i < UNIT_SLOTS => if Selected(s, i, q, average) then 1 else 0)
  }

  /** Below unit 12 only the peak rule applies: units 8 to 11 are selected exactly when peaked. */
  lemma LowUnitsPeakOnly(sf: seq<int>, q: int, highSampleRate: bool, i: nat)
    requires |sf| == SCALE_FACTOR_SLOTS && 1 < q <= UNIT_SLOTS && !highSampleRate && 8 <= i < 12 && i < q
    ensures CodebookSelection(sf, Some(q), highSampleRate)[i] == 1 <==> Peaked(sf[q := sf[q - 1]], i)
  {
  }

  /** `calculateSpectrumCodebookIndex` on the channel: only the codebook sets change. */
  method CalculateSpectrumCodebookIndex(channel: Channel)
    requires |channel.ScaleFactors| == SCALE_FACTOR_SLOTS
    requires channel.CodedQuantUnits.Some? ==> channel.CodedQuantUnits.value <= UNIT_SLOTS
    modifies channel
    ensures channel.State() == old(channel.State()).(CodebookSet :=
      CodebookSelection(old(channel.ScaleFactors), old(channel.CodedQuantUnits), channel.Config.HighSampleRate))
  {
    var selection := SelectCodebooks(channel.ScaleFactors, channel.CodedQuantUnits, channel.Config.HighSampleRate);
    channel.CodebookSet := selection;
  }

  /** The two passes: the peak rule from unit 8, then the raised rule from unit 12 for units not yet selected. */
  method SelectCodebooks(sf: seq<int>, units: Option<int>, highSampleRate: bool) returns (selection: seq<int>)
    requires |sf| == SCALE_FACTOR_SLOTS && (units.Some? ==> units.value <= UNIT_SLOTS)
    ensures selection == CodebookSelection(sf, units, highSampleRate)
  {
    selection := ZeroFill(UNIT_SLOTS);
    if units.None? || units.value <= 1 || highSampleRate {
      return;
    }
    var q := units.value;
    var s := sf[q := sf[q - 1]];
    var average := 0;
    if q > 12 {
      average := SumOfFirst(s, 12);
      average := (average + 6) / 12;
    }
    assert average == Average(s, q);
    var i: nat := 8;
    while i < q
      invariant 8 <= i && (i <= q || i == 8) && |selection| == UNIT_SLOTS
      invariant forall k :: 0 <= k < UNIT_SLOTS ==> selection[k] == (if 8 <= k < i && Peaked(s, k) then 1 else 0)
    {
      if Peaked(s, i) {
        selection := selection[i := 1];
      }
      i := i + 1;
    }
    i := 12;
    while i < q
      invariant 12 <= i && (i <= q || i == 12) && |selection| == UNIT_SLOTS
      invariant forall k :: 0 <= k < UNIT_SLOTS ==>
        selection[k] == (if (8 <= k < q && Peaked(s, k)) || (12 <= k < i && Raised(s, k, average)) then 1 else 0)
    {
      if selection[i] == 0 && Raised(s, i, average) {
        selection := selection[i := 1];
      }
      i := i + 1;
    }
  }

  method SumOfFirst(s: seq<int>, n: nat) returns (total: int)
    requires n <= |s|
    ensures total == Sum(s[..n])
  {
    total := 0;
    var i: nat := 0;
    while i < n
      invariant i <= n && total == Sum(s[..i])
    {
      assert s[..i + 1][..i] == s[..i];
      total := total + s[i];
      i := i + 1;
    }
  }

  // ---------------------------------------------------------------------------------------------
  // Quantized spectra

  /** The codebook unit i is read with under the given set and precision, when the loaded tables hold one. */
  function SpectrumBook(t: CodecTables, bookSet: int, precision: int, i: nat): (r: Option<HuffmanCodebook>)
    requires SpectrumTables(t) && i < QUANT_UNIT_COUNT
    ensures r.Some? <==> 0 <= bookSet < 2 && MIN_HUFFMAN_PRECISION <= precision <= MAX_HUFFMAN_PRECISION
    ensures r.Some? ==> SpectrumCodebook(r.value)
  {
    if 0 <= bookSet < 2 && MIN_HUFFMAN_PRECISION <= precision <= MAX_HUFFMAN_PRECISION then
      Some(t.HuffmanSpectrum[bookSet][precision][UnitBook(i)])
    else None
  }

  /** A unit's groups of coefficients fit in the unit and in the 16-value buffer. */
  lemma GroupsFit(count: int, h: HuffmanCodebook)
    requires SpectrumCodebook(h) && count in {2, 4, 8, 16}
    ensures 0 <= Sar(count, h.ValueCountPower) <= count
    ensures 0 <= h.ValueCount && Sar(count, h.ValueCountPower) * h.ValueCount <= count
  {
    ShlOne(h.ValueCountPower);
    SarNonNegative(count, h.ValueCountPower);
    DivMulBelow(count, Pow2(h.ValueCountPower));
  }

  lemma DivMulBelow(x: nat, p: int)
    requires p >= 1
    ensures 0 <= x / p <= x && (x / p) * p <= x
  {
    assert x == (x / p) * p + x % p;
    MulLeft(1, p, x / p);
  }

  /** The quantized coefficients and value buffer after some units, the position after them, and the outcome. */
  datatype SpectraStep = SpectraStep(Spectrum: seq<int>, Buffer: seq<int>, Next: nat, Result: Outcome<DecodeError>)

  /** Every bin outside unit i's bins [UnitStart(i), UnitStart(i + 1)) is the same in both. */
  ghost predicate OutsideUnitKept(before: seq<int>, after: seq<int>, i: nat)
    requires |before| == SUBBAND_COUNT && |after| == SUBBAND_COUNT
  {
    forall j :: 0 <= j < SUBBAND_COUNT && !(UnitStart(i) <= j < UnitStart(i + 1)) ==> after[j] == before[j]
  }

  /** The number of Huffman codes of unit i: its size divided by the codebook's group size. */
  function HuffmanGroups(h: HuffmanCodebook, i: nat): (g: nat)
    requires SpectrumCodebook(h) && i < QUANT_UNIT_COUNT
    ensures g <= UnitSize(i) && 0 <= h.ValueCount && g * h.ValueCount <= UnitSize(i)
    ensures g == Sar(UnitSize(i), h.ValueCountPower)
  {
    UnitLayout(i);
    GroupsFit(UnitSize(i), h);
    Sar(UnitSize(i), h.ValueCountPower)
  }

  /** The value buffer after a Huffman-coded unit: its groups' symbols at the front, and where they end. */
  function HuffmanValues(bits: seq<bool>, pos: nat, buffer: seq<int>, h: HuffmanCodebook, i: nat): (r: Fields)
    requires SpectrumCodebook(h) && i < QUANT_UNIT_COUNT && |buffer| == 16
    ensures |r.Values| == 16
  {
    UnitLayout(i);
    var run := Run(Coded(h, false), bits, pos, HuffmanGroups(h, i));
    Fields(SF.Splice(buffer, 0, run.Values), run.End)
  }

  /**
   * A Huffman-coded unit: the unit's groups are decoded into the front of the value buffer and
   * split into coefficients written from the unit's first bin on.
   */
  function HuffmanUnit(bits: seq<bool>, pos: nat, spectrum: seq<int>, buffer: seq<int>, h: HuffmanCodebook, i: nat)
    : (r: SpectraStep)
    requires SpectrumCodebook(h) && i < QUANT_UNIT_COUNT && |spectrum| == SUBBAND_COUNT && |buffer| == 16
    ensures |r.Spectrum| == SUBBAND_COUNT && |r.Buffer| == 16 && r.Result == Pass
    ensures OutsideUnitKept(spectrum, r.Spectrum, i)
  {
    UnitLayout(i);
    var values := HuffmanValues(bits, pos, buffer, h, i);
    var coefficients := Unpacked(values.Values, HuffmanGroups(h, i), h.ValueBits, h.ValueCount);
    SpectraStep(SF.Splice(spectrum, UnitStart(i), coefficients), values.Values, values.End, Pass)
  }

  /** A fixed-width unit: one signed field of the given width per bin of unit i. */
  function FixedUnit(bits: seq<bool>, pos: nat, spectrum: seq<int>, width: nat, i: nat): (r: Fields)
    requires i < QUANT_UNIT_COUNT && |spectrum| == SUBBAND_COUNT
    ensures |r.Values| == SUBBAND_COUNT && OutsideUnitKept(spectrum, r.Values, i)
  {
    UnitLayout(i);
    var start := UnitStart(i);
    var run := Run(Signed(width), bits, pos, UnitStart(i + 1) - start);
    Fields(SF.Splice(spectrum, start, run.Values), run.End)
  }

  /**
   * One unit of `readSpectra` at precision `precision` (the stored one plus one). Up to the
   * sample-rate class's Huffman limit the unit's grouped values are Huffman-coded into the
   * value buffer and split into coefficients; a set or precision with no codebook in the tables
   * is an undefined access. Above the limit each bin is a signed field of that width. Either
   * way only the unit's own bins change.
   */
  function UnitSpectra(bits: seq<bool>, pos: nat, spectrum: seq<int>, buffer: seq<int>, precision: int, bookSet: int,
                       i: nat, highSampleRate: bool, t: CodecTables): (r: SpectraStep)
    requires SpectrumTables(t) && i < QUANT_UNIT_COUNT && |spectrum| == SUBBAND_COUNT && |buffer| == 16
    ensures |r.Spectrum| == SUBBAND_COUNT && |r.Buffer| == 16
    ensures OutsideUnitKept(spectrum, r.Spectrum, i)
    ensures r.Result.Pass? <==> (precision <= MaxHuffPrecision(highSampleRate) ==>
      0 <= bookSet < 2 && MIN_HUFFMAN_PRECISION <= precision)
    ensures r.Result.Fail? ==> r.Result.error == UndefinedAccess && r.Spectrum == spectrum
  {
    if precision <= MaxHuffPrecision(highSampleRate) then
      match SpectrumBook(t, bookSet, precision, i)
      case None => SpectraStep(spectrum, buffer, pos, Fail(UndefinedAccess))
      case Some(h) => HuffmanUnit(bits, pos, spectrum, buffer, h, i)
    else
      var run := FixedUnit(bits, pos, spectrum, precision, i);
      SpectraStep(run.Values, buffer, run.End, Pass)
  }

  predicate SpectraShaped(c: ChannelState)
  {
    && |c.Precisions| == UNIT_SLOTS && |c.PrecisionsFine| == UNIT_SLOTS
    && |c.CodebookSet| == UNIT_SLOTS && |c.SpectraValuesBuffer| == 16
  }

  /** The number of passes of `for (i = 0; i < CodedQuantUnits; i++)`: none when unassigned or not positive. */
  function CodedUnits(units: Option<int>): nat
  {
    if units.Some? && units.value > 0 then units.value else 0
  }

  /** `readSpectra` over the first n units: zeroed coefficients, then unit after unit until one fails. */
  function SpectraUnits(bits: seq<bool>, pos: nat, c: ChannelState, highSampleRate: bool, t: CodecTables, n: nat)
    : (r: SpectraStep)
    requires SpectrumTables(t) && SpectraShaped(c) && n <= UNIT_SLOTS
    ensures |r.Spectrum| == SUBBAND_COUNT && |r.Buffer| == 16
    decreases n, 1
  {
    if n == 0 then SpectraStep(ZeroFill(SUBBAND_COUNT), c.SpectraValuesBuffer, pos, Pass)
    else SpectraThrough(bits, pos, c, highSampleRate, t, n - 1)
  }

  /** `readSpectra` through unit i: the first i units, then unit i unless one of them failed. */
  function SpectraThrough(bits: seq<bool>, pos: nat, c: ChannelState, highSampleRate: bool, t: CodecTables, i: nat)
    : (r: SpectraStep)
    requires SpectrumTables(t) && SpectraShaped(c) && i < UNIT_SLOTS
    ensures |r.Spectrum| == SUBBAND_COUNT && |r.Buffer| == 16
    decreases i + 1, 0
  {
    var before := SpectraUnits(bits, pos, c, highSampleRate, t, i);
    if before.Result.Fail? then before
    else UnitSpectra(bits, before.Next, before.Spectrum, before.Buffer, c.Precisions[i] + 1,
      c.CodebookSet[i], i, highSampleRate, t)
  }

  /** Unit k has a codebook when it needs one: a Huffman-coded unit's set and precision are in the tables. */
  predicate HasBook(c: ChannelState, k: nat, highSampleRate: bool)
    requires SpectraShaped(c) && k < UNIT_SLOTS
  {
    c.Precisions[k] + 1 <= MaxHuffPrecision(highSampleRate) ==>
      0 <= c.CodebookSet[k] < 2 && MIN_HUFFMAN_PRECISION <= c.Precisions[k] + 1
  }

  /** One more unit after passing units is that unit's read. */
  lemma SpectraUnitsStep(bits: seq<bool>, pos: nat, c: ChannelState, highSampleRate: bool, t: CodecTables, n: nat)
    requires SpectrumTables(t) && SpectraShaped(c) && n < UNIT_SLOTS
    requires SpectraUnits(bits, pos, c, highSampleRate, t, n).Result.Pass?
    ensures var before := SpectraUnits(bits, pos, c, highSampleRate, t, n);
      SpectraUnits(bits, pos, c, highSampleRate, t, n + 1) == UnitSpectra(bits, before.Next, before.Spectrum,
        before.Buffer, c.Precisions[n] + 1, c.CodebookSet[n], n, highSampleRate, t)
  {
  }

  /** The stage passes exactly when every coded unit has its codebook; the only failure is an undefined access. */
  lemma {:induction false} SpectraPass(bits: seq<bool>, pos: nat, c: ChannelState, highSampleRate: bool, t: CodecTables, n: nat)
    requires SpectrumTables(t) && SpectraShaped(c) && n <= UNIT_SLOTS
    ensures var r := SpectraUnits(bits, pos, c, highSampleRate, t, n);
      && (r.Result.Pass? <==> forall k :: 0 <= k < n ==> HasBook(c, k, highSampleRate))
      && (r.Result.Fail? ==> r.Result.error == UndefinedAccess)
  {
    if n > 0 {
      SpectraPass(bits, pos, c, highSampleRate, t, n - 1);
      SpectraPassStep(bits, pos, c, highSampleRate, t, n);
    }
  }

  lemma SpectraPassStep(bits: seq<bool>, pos: nat, c: ChannelState, highSampleRate: bool, t: CodecTables, n: nat)
    requires SpectrumTables(t) && SpectraShaped(c) && 0 < n <= UNIT_SLOTS
    requires var r := SpectraUnits(bits, pos, c, highSampleRate, t, n - 1);
      && (r.Result.Pass? <==> forall k :: 0 <= k < n - 1 ==> HasBook(c, k, highSampleRate))
      && (r.Result.Fail? ==> r.Result.error == UndefinedAccess)
    ensures var r := SpectraUnits(bits, pos, c, highSampleRate, t, n);
      && (r.Result.Pass? <==> forall k :: 0 <= k < n ==> HasBook(c, k, highSampleRate))
      && (r.Result.Fail? ==> r.Result.error == UndefinedAccess)
  {
    AllBooksSplit(c, n, highSampleRate);
    var before := SpectraUnits(bits, pos, c, highSampleRate, t, n - 1);
    if before.Result.Pass? {
      SpectraUnitsStep(bits, pos, c, highSampleRate, t, n - 1);
    }
  }

  lemma AllBooksSplit(c: ChannelState, n: nat, highSampleRate: bool)
    requires SpectraShaped(c) && 0 < n <= UNIT_SLOTS
    ensures (forall k :: 0 <= k < n ==> HasBook(c, k, highSampleRate)) <==>
      (forall k :: 0 <= k < n - 1 ==> HasBook(c, k, highSampleRate)) && HasBook(c, n - 1, highSampleRate)
  {
  }

  /** Bins from the first one past the coded units on stay zero. */
  lemma {:induction false} SpectraAboveZero(bits: seq<bool>, pos: nat, c: ChannelState, highSampleRate: bool,
                                            t: CodecTables, n: nat, j: nat)
    requires SpectrumTables(t) && SpectraShaped(c) && n <= UNIT_SLOTS
    requires UnitStart(n) <= j < SUBBAND_COUNT
    ensures SpectraUnits(bits, pos, c, highSampleRate, t, n).Spectrum[j] == 0
  {
    if n > 0 {
      UnitStartMonotone(n - 1, n);
      SpectraAboveZero(bits, pos, c, highSampleRate, t, n - 1, j);
      SpectraAboveStep(bits, pos, c, highSampleRate, t, n, j);
    }
  }

  /** The unit a step reads lies below bin j, so bin j keeps its value. */
  lemma SpectraAboveStep(bits: seq<bool>, pos: nat, c: ChannelState, highSampleRate: bool, t: CodecTables, n: nat, j: nat)
    requires SpectrumTables(t) && SpectraShaped(c) && 0 < n <= UNIT_SLOTS
    requires UnitStart(n) <= j < SUBBAND_COUNT
    ensures SpectraUnits(bits, pos, c, highSampleRate, t, n).Spectrum[j]
      == SpectraUnits(bits, pos, c, highSampleRate, t, n - 1).Spectrum[j]
  {
    var before := SpectraUnits(bits, pos, c, highSampleRate, t, n - 1);
    if before.Result.Pass? {
      var r := UnitSpectra(bits, before.Next, before.Spectrum, before.Buffer, c.Precisions[n - 1] + 1,
        c.CodebookSet[n - 1], n - 1, highSampleRate, t);
      assert OutsideUnitKept(before.Spectrum, r.Spectrum, n - 1);
    }
  }

  /** Once a unit fails, the later units change nothing. */
  lemma {:induction false} SpectraFailureStays(bits: seq<bool>, pos: nat, c: ChannelState, highSampleRate: bool,
                                               t: CodecTables, i: nat, n: nat)
    requires SpectrumTables(t) && SpectraShaped(c) && i <= n <= UNIT_SLOTS
    requires SpectraUnits(bits, pos, c, highSampleRate, t, i).Result.Fail?
    ensures SpectraUnits(bits, pos, c, highSampleRate, t, n) == SpectraUnits(bits, pos, c, highSampleRate, t, i)
    decreases n
  {
    if i < n {
      SpectraFailureStays(bits, pos, c, highSampleRate, t, i, n - 1);
      SpectraFailureStep(bits, pos, c, highSampleRate, t, i, n);
    }
  }

  lemma SpectraFailureStep(bits: seq<bool>, pos: nat, c: ChannelState, highSampleRate: bool, t: CodecTables, i: nat, n: nat)
    requires SpectrumTables(t) && SpectraShaped(c) && i < n <= UNIT_SLOTS
    requires SpectraUnits(bits, pos, c, highSampleRate, t, i).Result.Fail?
    requires SpectraUnits(bits, pos, c, highSampleRate, t, n - 1) == SpectraUnits(bits, pos, c, highSampleRate, t, i)
    ensures SpectraUnits(bits, pos, c, highSampleRate, t, n) == SpectraUnits(bits, pos, c, highSampleRate, t, i)
  {
  }

  method ReadHuffmanUnit(reader: BitReader, spectrum: seq<int>, buffer: seq<int>, h: HuffmanCodebook, i: nat)
    returns (spectrum': seq<int>, buffer': seq<int>)
    requires reader.Valid() && SpectrumCodebook(h) && i < QUANT_UNIT_COUNT && |spectrum| == SUBBAND_COUNT && |buffer| == 16
    modifies reader
    ensures reader.Valid() && unchanged(reader`buffer, reader`bits)
    ensures HuffmanUnit(reader.bits, old(reader.position), spectrum, buffer, h, i)
      == SpectraStep(spectrum', buffer', reader.position, Pass)
  {
    UnitLayout(i);
    buffer' := ReadHuffmanValues(reader, buffer, h, i);
    spectrum' := DecodeHuffmanValues(spectrum, UnitStart(i), UnitSize(i), h, buffer');
  }

  /** The Huffman codes of unit i read into the front of the value buffer. */
  method ReadHuffmanValues(reader: BitReader, buffer: seq<int>, h: HuffmanCodebook, i: nat) returns (buffer': seq<int>)
    requires reader.Valid() && SpectrumCodebook(h) && i < QUANT_UNIT_COUNT && |buffer| == 16
    modifies reader
    ensures reader.Valid() && unchanged(reader`buffer, reader`bits)
    ensures HuffmanValues(reader.bits, old(reader.position), buffer, h, i) == Fields(buffer', reader.position)
  {
    buffer' := U.ReadRunInto(reader, Coded(h, false), buffer, 0, HuffmanGroups(h, i));
  }

  method ReadFixedUnit(reader: BitReader, spectrum: seq<int>, width: nat, i: nat) returns (spectrum': seq<int>)
    requires reader.Valid() && i < QUANT_UNIT_COUNT && |spectrum| == SUBBAND_COUNT
    modifies reader
    ensures reader.Valid() && unchanged(reader`buffer, reader`bits)
    ensures FixedUnit(reader.bits, old(reader.position), spectrum, width, i) == Fields(spectrum', reader.position)
  {
    UnitLayout(i);
    var start := UnitStart(i);
    spectrum' := U.ReadRunInto(reader, Signed(width), spectrum, start, UnitStart(i + 1) - start);
  }

  method ReadUnitSpectra(reader: BitReader, spectrum: seq<int>, buffer: seq<int>, precision: int, bookSet: int,
                         i: nat, highSampleRate: bool, t: CodecTables)
    returns (spectrum': seq<int>, buffer': seq<int>, r: Outcome<DecodeError>)
    requires reader.Valid() && SpectrumTables(t) && i < QUANT_UNIT_COUNT && |spectrum| == SUBBAND_COUNT && |buffer| == 16
    modifies reader
    ensures reader.Valid() && unchanged(reader`buffer, reader`bits)
    ensures UnitSpectra(reader.bits, old(reader.position), spectrum, buffer, precision, bookSet, i, highSampleRate, t)
      == SpectraStep(spectrum', buffer', reader.position, r)
  {
    if precision <= MaxHuffPrecision(highSampleRate) {
      var book := SpectrumBook(t, bookSet, precision, i);
      if book.None? {
        return spectrum, buffer, Fail(UndefinedAccess);
      }
      spectrum', buffer' := ReadHuffmanUnit(reader, spectrum, buffer, book.value, i);
      r := Pass;
    } else {
      spectrum' := ReadFixedUnit(reader, spectrum, precision, i);
      buffer', r := buffer, Pass;
    }
  }

  /**
   * `readSpectra`: the channel's quantized coefficients become the stage's, the value buffer
   * keeps the last values read into it, and the reader ends after the last unit read.
   */
  method ReadSpectra(reader: BitReader, channel: Channel, t: CodecTables) returns (r: Outcome<DecodeError>)
    requires reader.Valid() && SpectrumTables(t) && SpectraShaped(channel.State())
    requires CodedUnits(channel.CodedQuantUnits) <= UNIT_SLOTS
    modifies reader, channel
    ensures reader.Valid() && unchanged(reader`buffer, reader`bits)
    ensures var step := SpectraUnits(reader.bits, old(reader.position), old(channel.State()),
        channel.Config.HighSampleRate, t, CodedUnits(old(channel.CodedQuantUnits)));
      && channel.State() == old(channel.State()).(QuantizedSpectra := step.Spectrum, SpectraValuesBuffer := step.Buffer)
      && reader.position == step.Next && r == step.Result
  {
    var c := channel.State();
    var step := ReadUnits(reader, c, channel.Config.HighSampleRate, t, CodedUnits(channel.CodedQuantUnits));
    r := step.Result;
    StoreSpectra(channel, step.Spectrum, step.Buffer);
  }

  /** The unit loop of `readSpectra`, left at the first unit that fails. */
  method ReadUnits(reader: BitReader, c: ChannelState, highSampleRate: bool, t: CodecTables, n: nat) returns (step: SpectraStep)
    requires reader.Valid() && SpectrumTables(t) && SpectraShaped(c) && n <= UNIT_SLOTS
    modifies reader
    ensures reader.Valid() && unchanged(reader`buffer, reader`bits)
    ensures SpectraUnits(reader.bits, old(reader.position), c, highSampleRate, t, n) == step
    ensures step.Next == reader.position
  {
    ghost var p0 := reader.position;
    var i;
    step, i := ReadUnitsUntilFailure(reader, c, highSampleRate, t, n);
    if i < n {
      SpectraFailureStays(reader.bits, p0, c, highSampleRate, t, i, n);
    }
  }

  /** The units read before the loop stops: all n of them, or the first i when unit i - 1 fails. */
  method ReadUnitsUntilFailure(reader: BitReader, c: ChannelState, highSampleRate: bool, t: CodecTables, n: nat)
    returns (step: SpectraStep, i: nat)
    requires reader.Valid() && SpectrumTables(t) && SpectraShaped(c) && n <= UNIT_SLOTS
    modifies reader
    ensures reader.Valid() && unchanged(reader`buffer, reader`bits)
    ensures i <= n && (i < n ==> step.Result.Fail?) && step.Next == reader.position
    ensures SpectraUnits(reader.bits, old(reader.position), c, highSampleRate, t, i) == step
  {
    var spectrum, buffer := ZeroFill(SUBBAND_COUNT), c.SpectraValuesBuffer;
    var r: Outcome<DecodeError> := Pass;
    ghost var p0 := reader.position;
    i := 0;
    while i < n && r.Pass?
      invariant i <= n && reader.Valid() && unchanged(reader`buffer, reader`bits)
      invariant SpectraUnits(reader.bits, p0, c, highSampleRate, t, i) == SpectraStep(spectrum, buffer, reader.position, r)
    {
      spectrum, buffer, r := ReadNextUnit(reader, p0, c, highSampleRate, t, i, spectrum, buffer);
      i := i + 1;
    }
    step := SpectraStep(spectrum, buffer, reader.position, r);
  }

  /** One pass of the unit loop of `readSpectra`. */
  method ReadNextUnit(reader: BitReader, ghost p0: nat, c: ChannelState, highSampleRate: bool, t: CodecTables, i: nat,
                      spectrum: seq<int>, buffer: seq<int>) returns (spectrum': seq<int>, buffer': seq<int>, r: Outcome<DecodeError>)
    requires reader.Valid() && SpectrumTables(t) && SpectraShaped(c) && i < UNIT_SLOTS
    requires SpectraUnits(reader.bits, p0, c, highSampleRate, t, i) == SpectraStep(spectrum, buffer, reader.position, Pass)
    modifies reader
    ensures reader.Valid() && unchanged(reader`buffer, reader`bits)
    ensures SpectraUnits(reader.bits, p0, c, highSampleRate, t, i + 1) == SpectraStep(spectrum', buffer', reader.position, r)
  {
    SpectraUnitsStep(reader.bits, p0, c, highSampleRate, t, i);
    spectrum', buffer', r := ReadUnitSpectra(reader, spectrum, buffer, c.Precisions[i] + 1, c.CodebookSet[i], i,
      highSampleRate, t);
  }

  method StoreSpectra(channel: Channel, spectrum: seq<int>, buffer: seq<int>)
    modifies channel
    ensures channel.State() == old(channel.State()).(QuantizedSpectra := spectrum, SpectraValuesBuffer := buffer)
  {
    channel.QuantizedSpectra, channel.SpectraValuesBuffer := spectrum, buffer;
  }

  // ---------------------------------------------------------------------------------------------
  // Fixed-width units: fine spectra and the low-frequency-effects spectra

  /**
   * Zeroed coefficients, then for each of the first n units whose entry in `ps` is positive a
   * signed field of that width plus one per bin; the other units' bins stay zero.
   */
  function OverflowUnits(bits: seq<bool>, pos: nat, ps: seq<int>, n: nat): (r: Fields)
    requires n <= |ps| && n <= QUANT_UNIT_COUNT
    ensures |r.Values| == SUBBAND_COUNT
    decreases n, 1
  {
    if n == 0 then Fields(ZeroFill(SUBBAND_COUNT), pos) else OverflowUnit(bits, pos, ps, n - 1)
  }

  /** The first i + 1 units: the first i, then unit i read when its entry is positive. */
  function OverflowUnit(bits: seq<bool>, pos: nat, ps: seq<int>, i: nat): (r: Fields)
    requires i < |ps| && i < QUANT_UNIT_COUNT
    ensures |r.Values| == SUBBAND_COUNT
    decreases i + 1, 0
  {
    var before := OverflowUnits(bits, pos, ps, i);
    if ps[i] > 0 then FixedUnit(bits, before.End, before.Values, ps[i] + 1, i) else before
  }

  /** A bin of a unit that is past the first n or whose entry is not positive stays zero. */
  lemma {:induction false} OverflowUnitsZero(bits: seq<bool>, pos: nat, ps: seq<int>, n: nat, k: nat, j: nat)
    requires n <= |ps| && n <= QUANT_UNIT_COUNT && k < QUANT_UNIT_COUNT
    requires UnitStart(k) <= j < UnitStart(k + 1)
    requires k >= n || (k < |ps| && ps[k] <= 0)
    ensures OverflowUnits(bits, pos, ps, n).Values[j] == 0
  {
    UnitLayout(k);
    if n > 0 {
      OverflowUnitsZero(bits, pos, ps, n - 1, k, j);
      if k < n - 1 {
        UnitStartMonotone(k + 1, n - 1);
      } else if k > n - 1 {
        UnitStartMonotone(n, k);
      }
      OverflowUnitKeeps(bits, pos, ps, n - 1, j);
    }
  }

  /** Unit i leaves the bins outside it alone, and all bins when its entry is not positive. */
  lemma OverflowUnitKeeps(bits: seq<bool>, pos: nat, ps: seq<int>, i: nat, j: nat)
    requires i < |ps| && i < QUANT_UNIT_COUNT && j < SUBBAND_COUNT
    requires !(UnitStart(i) <= j < UnitStart(i + 1)) || ps[i] <= 0
    ensures OverflowUnits(bits, pos, ps, i + 1).Values[j] == OverflowUnits(bits, pos, ps, i).Values[j]
  {
    UnitLayout(i);
  }

  /** The reading loop shared by `readSpectraFine` and `readLfeSpectra`. */
  method ReadOverflowUnits(reader: BitReader, ps: seq<int>, n: nat) returns (spectrum: seq<int>)
    requires reader.Valid() && n <= |ps| && n <= QUANT_UNIT_COUNT
    modifies reader
    ensures reader.Valid() && unchanged(reader`buffer, reader`bits)
    ensures OverflowUnits(reader.bits, old(reader.position), ps, n) == Fields(spectrum, reader.position)
  {
    ghost var p0 := reader.position;
    spectrum := ZeroFill(SUBBAND_COUNT);
    var i: nat := 0;
    while i < n
      invariant i <= n && reader.Valid() && unchanged(reader`buffer, reader`bits)
      invariant OverflowUnits(reader.bits, p0, ps, i) == Fields(spectrum, reader.position)
    {
      spectrum, i := ReadOverflowUnit(reader, p0, ps, i, spectrum);
    }
  }

  /** One pass of the loop of `ReadOverflowUnits`: unit i is read when its entry is positive. */
  method ReadOverflowUnit(reader: BitReader, ghost p0: nat, ps: seq<int>, i: nat, spectrum: seq<int>)
    returns (spectrum': seq<int>, next: nat)
    requires reader.Valid() && i < |ps| && i < QUANT_UNIT_COUNT
    requires OverflowUnits(reader.bits, p0, ps, i) == Fields(spectrum, reader.position)
    modifies reader
    ensures reader.Valid() && unchanged(reader`buffer, reader`bits)
    ensures next == i + 1 && OverflowUnits(reader.bits, p0, ps, next) == Fields(spectrum', reader.position)
  {
    spectrum', next := spectrum, i + 1;
    if ps[i] > 0 {
      spectrum' := ReadFixedUnit(reader, spectrum, ps[i] + 1, i);
    }
  }

  /** `readSpectraFine`: units with a positive fine precision p hold (p + 1)-bit signed fields. */
  method ReadSpectraFine(reader: BitReader, channel: Channel) returns ()
    requires reader.Valid() && SpectraShaped(channel.State()) && CodedUnits(channel.CodedQuantUnits) <= UNIT_SLOTS
    modifies reader, channel
    ensures reader.Valid() && unchanged(reader`buffer, reader`bits)
    ensures var fine := OverflowUnits(reader.bits, old(reader.position), old(channel.PrecisionsFine),
        CodedUnits(old(channel.CodedQuantUnits)));
      channel.State() == old(channel.State()).(QuantizedSpectraFine := fine.Values) && reader.position == fine.End
  {
    var spectrum := ReadOverflowUnits(reader, channel.PrecisionsFine, CodedUnits(channel.CodedQuantUnits));
    channel.QuantizedSpectraFine := spectrum;
  }
}
