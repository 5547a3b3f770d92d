/**
 * Intensity stereo: above the stereo boundary a stereo block codes only its primary channel,
 * and the secondary channel's bins there are copies of the primary's, negated in the units whose
 * joint-stereo sign is set.
 */
module Stereo {
  import opened Wrappers
  import opened Tables
  import opened ChannelConfigs
  import opened DecodeState
  import opened BlockUnpacking

  /**
   * The units `applyIntensityStereo` rewrites, as a half-open range: from the stereo boundary up
   * to the block's unit count. An unassigned boundary makes the loop run no pass, and the passes
   * for a unit below 0 or from 30 on find no bins, so the range is clipped to the thirty units.
   */
  function StereoUnits(stereoUnit: Option<int>, totalUnits: int): (r: (nat, nat))
    ensures r.0 <= r.1 <= UNIT_SLOTS
    ensures stereoUnit.None? || stereoUnit.value >= totalUnits ==> r.0 == r.1
    ensures stereoUnit.Some? && 0 <= stereoUnit.value < totalUnits <= UNIT_SLOTS ==> r == (stereoUnit.value, totalUnits)
  {
    if stereoUnit.None? || stereoUnit.value >= totalUnits then (0, 0)
    else
      var hi := if totalUnits > UNIT_SLOTS then UNIT_SLOTS else if totalUnits < 0 then 0 else totalUnits;
      var lo := if stereoUnit.value < 0 then 0 else if stereoUnit.value > hi then hi else stereoUnit.value;
      (lo, hi)
  }

  /** The value written to bin k of the secondary channel in a unit with joint-stereo sign `sign`. */
  function StereoBin(primaryBin: real, sign: int): real
  {
    if sign > 0 then -primaryBin else primaryBin
  }

  /** The secondary spectrum with units `lo` to `hi` mirrored from the primary, each with its unit's sign. */
  function MirroredUnits(primary: seq<real>, secondary: seq<real>, signs: seq<int>, lo: nat, hi: nat): (r: seq<real>)
    requires |primary| == BIN_SLOTS && |secondary| == BIN_SLOTS && |signs| == UNIT_SLOTS && hi <= UNIT_SLOTS
    ensures |r| == BIN_SLOTS
  {
    UnitOfBins();
    seq(BIN_SLOTS, k requires 0 <= k < BIN_SLOTS =>
      if UnitStart(lo) <= k < UnitStart(hi) then StereoBin(primary[k], signs[UnitOf(k)]) else secondary[k])
  }

  /**
   * The secondary spectrum after `applyIntensityStereo`: in the stereo units each bin takes the
   * primary's bin, negated where the unit's sign is set; every other bin keeps its value.
   */
  function IntensityStereo(primary: seq<real>, secondary: seq<real>, signs: seq<int>,
                           stereoUnit: Option<int>, totalUnits: int): (r: seq<real>)
    requires |primary| == BIN_SLOTS && |secondary| == BIN_SLOTS && |signs| == UNIT_SLOTS
    ensures |r| == BIN_SLOTS
  {
    var (lo, hi) := StereoUnits(stereoUnit, totalUnits);
    MirroredUnits(primary, secondary, signs, lo, hi)
  }

  /**
   * Intensity stereo bin by bin: a bin of a stereo unit u mirrors the primary, with the sign of
   * u, and a bin outside the stereo units keeps its secondary value.
   */
  lemma IntensityStereoBins(primary: seq<real>, secondary: seq<real>, signs: seq<int>,
                            stereoUnit: Option<int>, totalUnits: int, u: nat, k: nat)
    requires |primary| == BIN_SLOTS && |secondary| == BIN_SLOTS && |signs| == UNIT_SLOTS && k < BIN_SLOTS
    ensures var (lo, hi) := StereoUnits(stereoUnit, totalUnits);
      var r := IntensityStereo(primary, secondary, signs, stereoUnit, totalUnits);
      && (lo <= u < hi && UnitStart(u) <= k < UnitStart(u + 1) ==>
            r[k] == (if signs[u] > 0 then -primary[k] else primary[k]))
      && (k < UnitStart(lo) || UnitStart(hi) <= k ==> r[k] == secondary[k])
  {
    var (lo, hi) := StereoUnits(stereoUnit, totalUnits);
    if lo <= u < hi && UnitStart(u) <= k < UnitStart(u + 1) {
      UnitOfBin(k, u);
      UnitStartMonotone(lo, u);
      UnitStartMonotone(u + 1, hi);
    }
  }

  /** Running intensity stereo a second time over the same primary changes nothing more. */
  lemma IntensityStereoIdempotent(primary: seq<real>, secondary: seq<real>, signs: seq<int>,
                                  stereoUnit: Option<int>, totalUnits: int)
    requires |primary| == BIN_SLOTS && |secondary| == BIN_SLOTS && |signs| == UNIT_SLOTS
    ensures var once := IntensityStereo(primary, secondary, signs, stereoUnit, totalUnits);
      IntensityStereo(primary, once, signs, stereoUnit, totalUnits) == once
  {
    var once := IntensityStereo(primary, secondary, signs, stereoUnit, totalUnits);
    assert forall k :: 0 <= k < BIN_SLOTS ==> IntensityStereo(primary, once, signs, stereoUnit, totalUnits)[k] == once[k];
  }

  /** The inner loop for unit `unit`: its bins of `dest` take the primary's, negated when `sign` is set, and no other bin changes. */
  method MirrorUnit(source: array<real>, dest: array<real>, sign: int, unit: nat)
    requires source.Length == BIN_SLOTS && dest.Length == BIN_SLOTS && source != dest && unit < UNIT_SLOTS
    modifies dest
    ensures forall k :: 0 <= k < BIN_SLOTS ==>
      dest[k] == (if UnitStart(unit) <= k < UnitStart(unit + 1) then StereoBin(source[k], sign) else old(dest[k]))
  {
    UnitLayoutIsTable();
    UnitLayout(unit);
    for sb := QuantUnitToCoeffIndex[unit] to QuantUnitToCoeffIndex[unit + 1]
      invariant forall k :: 0 <= k < BIN_SLOTS ==>
        dest[k] == (if UnitStart(unit) <= k < sb then StereoBin(source[k], sign) else old(dest[k]))
    {
      if sign > 0 {
        dest[sb] := -source[sb];
      } else {
        dest[sb] := source[sb];
      }
    }
  }

  /**
   * `applyIntensityStereo`: in a stereo block the secondary spectrum becomes `IntensityStereo`
   * of the two spectra; the primary spectrum, and every spectrum of other blocks, stays as it was.
   */
  method ApplyIntensityStereo(block: Block)
    requires Decodable(block)
    modifies if block.BlockType == STEREO then {block.SecondaryChannel().Spectra} else {}
    ensures block.BlockType == STEREO ==>
      && block.SecondaryChannel().Spectra[..] == IntensityStereo(
           block.PrimaryChannel().Spectra[..], old(block.SecondaryChannel().Spectra[..]),
           block.JointStereoSigns, block.StereoQuantizationUnit, block.QuantizationUnitCount)
      && block.PrimaryChannel().Spectra[..] == old(block.PrimaryChannel().Spectra[..])
  {
    if block.BlockType != STEREO {
      return;
    }
    var totalUnits := block.QuantizationUnitCount;
    var stereoUnits := block.StereoQuantizationUnit;
    if stereoUnits.Some? && stereoUnits.value >= totalUnits {
      StereoNoUnits(block);
      return;
    }
    var source := block.PrimaryChannel();
    var dest := block.SecondaryChannel();
    SeparateRoles(block);
    var (lo, hi) := StereoUnits(stereoUnits, totalUnits);
    MirrorUnits(source.Spectra, dest.Spectra, block.JointStereoSigns, lo, hi);
  }

  /** The unit loop of `applyIntensityStereo` over units `lo` to `hi`. */
  method MirrorUnits(source: array<real>, dest: array<real>, signs: seq<int>, lo: nat, hi: nat)
    requires source.Length == BIN_SLOTS && dest.Length == BIN_SLOTS && source != dest
    requires |signs| == UNIT_SLOTS && lo <= hi <= UNIT_SLOTS
    modifies dest
    ensures dest[..] == MirroredUnits(source[..], old(dest[..]), signs, lo, hi)
  {
    UnitOfBins();
    ghost var before := dest[..];
    for i := lo to hi
      invariant forall k :: 0 <= k < BIN_SLOTS ==>
        dest[k] == (if UnitStart(lo) <= k < UnitStart(i) then StereoBin(source[k], signs[UnitOf(k)]) else before[k])
    {
      UnitStartMonotone(lo, i);
      MirrorUnit(source, dest, signs[i], i);
      forall k | UnitStart(i) <= k < UnitStart(i + 1)
        ensures UnitOf(k) == i
      {
        UnitOfBin(k, i);
      }
    }
    assert forall k :: 0 <= k < BIN_SLOTS ==> dest[..][k] == MirroredUnits(source[..], before, signs, lo, hi)[k];
  }

  /** The two role channels of a stereo block have separate spectrum buffers of the full bin count. */
  lemma SeparateRoles(block: Block)
    requires Decodable(block) && block.BlockType == STEREO
    ensures block.PrimaryChannel().Spectra != block.SecondaryChannel().Spectra
    ensures block.PrimaryChannel().Spectra.Length == BIN_SLOTS && block.SecondaryChannel().Spectra.Length == BIN_SLOTS
  {
    var c0, c1 := block.Channels[0], block.Channels[1];
    assert c0.Spectra in c0.Repr && c1.Spectra in c1.Repr;
  }

  /** With the boundary at or past the unit count, intensity stereo leaves the secondary spectrum alone. */
  lemma StereoNoUnits(block: Block)
    requires Decodable(block) && block.BlockType == STEREO
    requires block.StereoQuantizationUnit.Some? && block.StereoQuantizationUnit.value >= block.QuantizationUnitCount
    ensures block.SecondaryChannel().Spectra[..] == IntensityStereo(
      block.PrimaryChannel().Spectra[..], block.SecondaryChannel().Spectra[..],
      block.JointStereoSigns, block.StereoQuantizationUnit, block.QuantizationUnitCount)
  {
    SeparateRoles(block);
  }
}
