/**
 * The tables the decoder loads when it starts: the Huffman codebooks, the scale-factor
 * weights, the band-extension tables and the floating-point scale tables. Their contents are
 * not part of this model; they are a parameter of every stage that reads them, together with
 * the shape each stage relies on.
 */
module RuntimeTables {
  import opened Huffman

  datatype CodecTables = CodecTables(
    HuffmanScaleFactorsUnsigned: seq<HuffmanCodebook>,
    HuffmanScaleFactorsSigned: seq<HuffmanCodebook>,
    /** Indexed by codebook set, then precision, then the unit's codebook index. */
    HuffmanSpectrum: seq<seq<seq<HuffmanCodebook>>>,
    ScaleFactorWeights: seq<seq<int>>,
    /** Row `units - 13` holds group B's and group C's first unit and the band count. */
    BexGroupInfo: seq<seq<int>>,
    BexEncodedValueCounts: seq<seq<int>>,
    BexDataLengths: seq<seq<seq<int>>>,
    BexMode0Bands3: seq<seq<real>>,
    BexMode0Bands4: seq<seq<real>>,
    BexMode0Bands5: seq<seq<real>>,
    BexMode2Scale: seq<real>,
    BexMode3Initial: seq<real>,
    BexMode3Rate: seq<real>,
    BexMode4Multiplier: seq<real>,
    SpectrumScale: seq<real>,
    QuantizerStepSize: seq<real>,
    QuantizerFineStepSize: seq<real>)

  /** The precisions a spectrum codebook exists for. */
  const MIN_HUFFMAN_PRECISION: nat := 1
  const MAX_HUFFMAN_PRECISION: nat := 7

  /** A codebook for the values of one unit: readable, and grouping at most 16 values per code. */
  predicate SpectrumCodebook(h: HuffmanCodebook)
  {
    ValidCodebook(h) && 0 <= h.ValueCountPower <= 4
  }

  /** The band-extension rows a group-info row selects: a band count every table is indexed by. */
  predicate BexRows(t: CodecTables, b: int)
  {
    && 0 <= b
    && |t.BexEncodedValueCounts| == 5 && |t.BexDataLengths| == 5
    && forall m :: 0 <= m < 5 ==>
         && b < |t.BexEncodedValueCounts[m]| && b < |t.BexDataLengths[m]|
         && 0 <= t.BexEncodedValueCounts[m][b] <= 4
         && t.BexEncodedValueCounts[m][b] <= |t.BexDataLengths[m][b]|
         && forall i :: 0 <= i < |t.BexDataLengths[m][b]| ==> 0 <= t.BexDataLengths[m][b][i] < 0x100
  }

  /** One group-info row per unit count from 13 to 30, each naming a band count the band-extension tables cover. */
  predicate BexTables(t: CodecTables)
  {
    && |t.BexGroupInfo| == 18
    && forall r :: 0 <= r < 18 ==> |t.BexGroupInfo[r]| >= 3 && BexRows(t, t.BexGroupInfo[r][2])
  }

  /** The scale-factor tables: unsigned codebooks for 1 to 6 bits, signed ones for 2 to 5, eight weight rows. */
  predicate ScaleFactorTables(t: CodecTables)
  {
    && |t.HuffmanScaleFactorsUnsigned| >= 7
    && (forall k :: 1 <= k <= 6 ==> ValidCodebook(t.HuffmanScaleFactorsUnsigned[k]))
    && |t.HuffmanScaleFactorsSigned| >= 6
    && (forall k :: 2 <= k <= 5 ==> ValidCodebook(t.HuffmanScaleFactorsSigned[k]))
    && |t.ScaleFactorWeights| == 8
    && (forall w :: 0 <= w < 8 ==> |t.ScaleFactorWeights[w]| >= 31)
  }

  /** The spectrum codebooks: both sets, precisions 0 to 7 (a codebook from 1 on) and the four unit sizes. */
  predicate SpectrumTables(t: CodecTables)
  {
    && |t.HuffmanSpectrum| == 2
    && (forall s :: 0 <= s < 2 ==> |t.HuffmanSpectrum[s]| == MAX_HUFFMAN_PRECISION + 1)
    && (forall s, p :: 0 <= s < 2 && 0 <= p <= MAX_HUFFMAN_PRECISION ==> |t.HuffmanSpectrum[s][p]| == 4)
    && (forall s, p, c :: 0 <= s < 2 && MIN_HUFFMAN_PRECISION <= p <= MAX_HUFFMAN_PRECISION && 0 <= c < 4 ==>
          SpectrumCodebook(t.HuffmanSpectrum[s][p][c]))
  }

  /**
   * The shape of the tables as loaded: unsigned scale-factor codebooks for 1 to 6 bits, signed
   * ones for 2 to 5 bits, spectrum codebooks for both sets, precisions 1 to 7 and the four unit
   * sizes, eight weight rows covering every scale factor, one group-info row per unit count
   * from 13 to 30 whose band count indexes the band-extension tables, and the floating-point
   * tables at the sizes they are generated with.
   */
  predicate Wellformed(t: CodecTables)
  {
    && ScaleFactorTables(t)
    && SpectrumTables(t)
    && BexTables(t)
    && |t.SpectrumScale| == 32 && |t.QuantizerStepSize| == 16 && |t.QuantizerFineStepSize| == 16
  }

  /** A lookup in a floating-point table; an index outside it reads as 0. */
  function RealAt(table: seq<real>, i: int): real
  {
    if 0 <= i < |table| then table[i] else 0.0
  }
}
