/**
 * Bit allocation: the gradient curve a block's header describes, the mask that rewards jumps in
 * the scale factors, and the precision of every quantization unit computed from the three.
 */
module BitAllocation {
  import opened JsInt
  import opened DecodeState

  /** The 48-point curve every shorter gradient curve is sampled from, written as two rows of 24. */
  const MainCurve: seq<int> := MainCurveLow + MainCurveHigh
  const MainCurveLow: seq<int> := [1, 1, 1, 1, 2, 2, 2, 2, 3, 3, 3, 4, 4, 5, 5, 6, 7, 8, 9, 10, 11, 12, 13, 15]
  const MainCurveHigh: seq<int> := [16, 18, 19, 20, 21, 22, 23, 24, 25, 26, 26, 27, 27, 28, 28, 28, 29, 29, 29, 29, 30, 30, 30, 30]

  /** Entry i of the curve of the given length samples the main curve at `floor(i * 48 / length)`. */
  function CurvePoint(i: nat, length: nat): (p: nat)
    requires i < length
    ensures p < |MainCurve|
  {
    MulLeft(i, length, 48);
    DivBelow(i * 48, length, 48);
    (i * 48) / length
  }

  /** The 48 gradient curves; curve k has k + 1 points, one per quantization unit it spans. */
  function GenerateGradientCurves(): (curves: seq<seq<int>>)
    ensures |curves| == 48
    ensures forall k :: 0 <= k < 48 ==> |curves[k]| == k + 1
  {
    seq(48, k requires 0 <= k < 48 =>
      seq(k + 1, i requires 0 <= i < k + 1 => MainCurve[CurvePoint(i, k + 1)]))
  }

  lemma DivBelow(x: nat, d: nat, q: nat)
    requires 0 < d && x < q * d
    ensures x / d < q
  {
  }

  lemma DivMonotone(x: nat, y: nat, d: nat)
    requires 0 < d && x <= y
    ensures x / d <= y / d
  {
    if x / d > y / d {
      MulLeft(y / d + 1, x / d, d);
    }
  }

  /** From position a on, every value lies between 1 and 30 and none is below the one before it. */
  predicate RisingFrom(s: seq<int>, a: nat)
    decreases |s| - a
  {
    a >= |s| || (1 <= s[a] <= 30 && (a + 1 < |s| ==> s[a] <= s[a + 1]) && RisingFrom(s, a + 1))
  }

  lemma {:induction false} RisingFromAll(s: seq<int>, a: nat, b: nat)
    requires RisingFrom(s, a) && a <= b < |s|
    ensures 1 <= s[b] <= 30 && (b + 1 < |s| ==> s[b] <= s[b + 1])
    decreases b - a
  {
    if a < b {
      RisingFromAll(s, a + 1, b);
    }
  }

  /** The low half of the curve rises from any position on, shown from its end down to a. */
  lemma {:induction false} LowRises(a: nat)
    requires a <= |MainCurveLow|
    ensures RisingFrom(MainCurveLow, a)
    decreases |MainCurveLow| - a
  {
    if a < |MainCurveLow| {
      LowRises(a + 1);
    }
  }

  /** The same for the high half. */
  lemma {:induction false} HighRises(a: nat)
    requires a <= |MainCurveHigh|
    ensures RisingFrom(MainCurveHigh, a)
    decreases |MainCurveHigh| - a
  {
    if a < |MainCurveHigh| {
      HighRises(a + 1);
    }
  }

  lemma MainCurveShape()
    ensures |MainCurve| == 48
    ensures forall a :: 0 <= a < 48 ==> 1 <= MainCurve[a] <= 30
    ensures forall a :: 0 <= a < 47 ==> MainCurve[a] <= MainCurve[a + 1]
  {
    LowRises(0);
    HighRises(0);
    forall a | 0 <= a < 48
      ensures 1 <= MainCurve[a] <= 30 && (a < 47 ==> MainCurve[a] <= MainCurve[a + 1])
    {
      if a < 24 {
        RisingFromAll(MainCurveLow, 0, a);
      } else {
        RisingFromAll(MainCurveHigh, 0, a - 24);
      }
    }
  }

  lemma {:induction false} MainCurveSorted(a: nat, b: nat)
    requires a <= b < 48
    ensures MainCurve[a] <= MainCurve[b]
    decreases b - a
  {
    MainCurveShape();
    if a < b {
      MainCurveSorted(a + 1, b);
    }
  }

  /**
   * Every curve takes values from 1 to 30, never decreases, and the longest curve is the main
   * curve itself.
   */
  lemma GradientCurvesShape()
    ensures forall k, i :: 0 <= k < 48 && 0 <= i <= k ==> 1 <= GenerateGradientCurves()[k][i] <= 30
    ensures forall k, i, j :: 0 <= k < 48 && 0 <= i <= j <= k ==>
      GenerateGradientCurves()[k][i] <= GenerateGradientCurves()[k][j]
    ensures GenerateGradientCurves()[47] == MainCurve
  {
    var curves := GenerateGradientCurves();
    MainCurveShape();
    forall k, i, j | 0 <= k < 48 && 0 <= i <= j <= k
      ensures curves[k][i] <= curves[k][j]
    {
      MulLeft(i, j, 48);
      DivMonotone(i * 48, j * 48, k + 1);
      MainCurveSorted(CurvePoint(i, k + 1), CurvePoint(j, k + 1));
    }
    forall i | 0 <= i < 48
      ensures curves[47][i] == MainCurve[i]
    {
      assert CurvePoint(i, 48) == i;
    }
  }

  // ---------------------------------------------------------------------------------------------
  // The gradient

  /** The header describes a real slope: units to span and a value change to make. */
  predicate Slopes(s: BlockState)
  {
    s.GradientEndUnit - s.GradientStartUnit > 0 && s.GradientEndValue != s.GradientStartValue
  }

  /** A slope never spans more units than the longest curve has points. */
  predicate CurveExists(s: BlockState)
  {
    Slopes(s) ==> s.GradientEndUnit - s.GradientStartUnit <= 48
  }

  /**
   * A point of the slope: one step past the start value towards the end value, plus the curve's
   * share (out of 31) of the rest of the way.
   */
  function Interpolated(startValue: int, endValue: int, curve: int): int
  {
    var valueCount := endValue - startValue;
    if valueCount < 0 then
      startValue - 1 - (curve * (-valueCount - 1)) / 31
    else
      startValue + 1 + (curve * (valueCount - 1)) / 31
  }

  /** Gradient entry k of a block whose header is s (entries the decoder leaves alone keep theirs). */
  function GradientAt(s: BlockState, k: nat): int
    requires k < |s.Gradient| && CurveExists(s)
  {
    var unitCount := s.GradientEndUnit - s.GradientStartUnit;
    if Slopes(s) && s.GradientStartUnit <= k < s.GradientEndUnit then
      var curve := GenerateGradientCurves()[unitCount - 1];
      Interpolated(s.GradientStartValue, s.GradientEndValue, curve[k - s.GradientStartUnit])
    else FlatAt(s, k)
  }

  /** Entry k before the slope is drawn: the start value, then the end value up to the unit count. */
  function FlatAt(s: BlockState, k: nat): int
    requires k < |s.Gradient|
  {
    if k < s.GradientEndUnit then s.GradientStartValue
    else if k <= s.QuantizationUnitCount then s.GradientEndValue
    else s.Gradient[k]
  }

  function Gradient(s: BlockState): (g: seq<int>)
    requires CurveExists(s)
    ensures |g| == |s.Gradient|
    ensures forall k :: 0 <= k < |g| ==> g[k] == GradientAt(s, k)
  {
    seq(|s.Gradient|, k requires 0 <= k < |s.Gradient| => GradientAt(s, k))
  }

  /**
   * Fills the block's gradient: the start value up to the end unit, the end value from there to
   * the unit count, and the sampled curve between the start and end units when there is a slope.
   */
  method CreateGradient(block: Block)
    requires CurveExists(block.State())
    modifies block
    ensures block.State() == old(block.State()).(Gradient := Gradient(old(block.State())))
  {
    var g := DrawGradient(block.State());
    block.Gradient := g;
  }

  /** The three passes of CreateGradient over the block's gradient, on the header's values. */
  method DrawGradient(s: BlockState) returns (g: seq<int>)
    requires CurveExists(s)
    ensures g == Gradient(s)
  {
    g := FillFlat(s);
    if s.GradientEndUnit - s.GradientStartUnit > 0 && s.GradientEndValue - s.GradientStartValue != 0 {
      g := DrawSlope(s, g);
    }
    assert g == Gradient(s);
  }

  /** The first two passes: the start value below the end unit, the end value up to the unit count. */
  method FillFlat(s: BlockState) returns (g: seq<int>)
    ensures |g| == |s.Gradient| && forall k :: 0 <= k < |g| ==> g[k] == FlatAt(s, k)
  {
    var endUnit, count := s.GradientEndUnit, s.QuantizationUnitCount;
    g := s.Gradient;
    var i := 0;
    while i < endUnit
      invariant 0 <= i && (i <= endUnit || i == 0)
      invariant |g| == |s.Gradient|
      invariant forall k :: 0 <= k < |g| ==> g[k] == if k < i then s.GradientStartValue else s.Gradient[k]
    {
      if i < |g| {
        g := g[i := s.GradientStartValue];
      }
      i := i + 1;
    }
    i := endUnit;
    while i <= count
      invariant endUnit <= i && (i <= count + 1 || i == endUnit)
      invariant |g| == |s.Gradient|
      invariant forall k :: 0 <= k < |g| ==> (g[k] == if k < endUnit || k < i then FlatAt(s, k) else s.Gradient[k])
    {
      if 0 <= i < |g| {
        g := g[i := s.GradientEndValue];
      }
      i := i + 1;
    }
  }

  /** The third pass: the sampled curve over the units from the start unit to the end unit. */
  method DrawSlope(s: BlockState, flat: seq<int>) returns (g: seq<int>)
    requires CurveExists(s) && Slopes(s)
    requires |flat| == |s.Gradient| && forall k :: 0 <= k < |flat| ==> flat[k] == FlatAt(s, k)
    ensures g == Gradient(s)
  {
    var startUnit, endUnit := s.GradientStartUnit, s.GradientEndUnit;
    var startValue, endValue := s.GradientStartValue, s.GradientEndValue;
    var curve := GenerateGradientCurves()[endUnit - startUnit - 1];
    g := flat;
    var i := startUnit;
    while i < endUnit
      invariant SlopeDrawnTo(s, g, curve, i)
    {
      var x := Interpolated(startValue, endValue, curve[i - startUnit]);
      var next := if 0 <= i < |g| then g[i := x] else g;
      SlopeStep(s, g, curve, i, x, next);
      g := next;
      i := i + 1;
    }
    SlopeDrawn(s, g, curve);
  }

  /** The units before i of the slope hold their curve points, the rest what the first passes wrote. */
  ghost predicate SlopeDrawnTo(s: BlockState, g: seq<int>, curve: seq<int>, i: int)
  {
    && s.GradientStartUnit <= i <= s.GradientStartUnit + |curve|
    && |g| == |s.Gradient|
    && forall k :: 0 <= k < |g| ==> g[k] == if s.GradientStartUnit <= k < i
         then Interpolated(s.GradientStartValue, s.GradientEndValue, curve[k - s.GradientStartUnit]) else FlatAt(s, k)
  }

  lemma SlopeStep(s: BlockState, g: seq<int>, curve: seq<int>, i: int, x: int, next: seq<int>)
    requires SlopeDrawnTo(s, g, curve, i) && i < s.GradientStartUnit + |curve|
    requires x == Interpolated(s.GradientStartValue, s.GradientEndValue, curve[i - s.GradientStartUnit])
    requires next == if 0 <= i < |g| then g[i := x] else g
    ensures SlopeDrawnTo(s, next, curve, i + 1)
  {
  }

  lemma SlopeDrawn(s: BlockState, g: seq<int>, curve: seq<int>)
    requires CurveExists(s) && Slopes(s)
    requires curve == GenerateGradientCurves()[s.GradientEndUnit - s.GradientStartUnit - 1]
    requires SlopeDrawnTo(s, g, curve, s.GradientEndUnit)
    ensures g == Gradient(s)
  {
  }

  /** A point of a slope lies between the slope's two values, one step away from the start. */
  lemma InterpolatedBetween(startValue: int, endValue: int, curve: nat)
    requires startValue != endValue && 1 <= curve <= 30
    ensures startValue < endValue ==> startValue < Interpolated(startValue, endValue, curve) <= endValue
    ensures endValue < startValue ==> endValue <= Interpolated(startValue, endValue, curve) < startValue
  {
    var m := if startValue < endValue then endValue - startValue - 1 else startValue - endValue - 1;
    MulLeft(curve, 31, m);
    DivBelow(curve * m, 31, m + 1);
  }

  /** A larger curve value gives a point further along the slope. */
  lemma InterpolatedMonotone(startValue: int, endValue: int, c: nat, d: nat)
    requires c <= d
    ensures startValue < endValue ==> Interpolated(startValue, endValue, c) <= Interpolated(startValue, endValue, d)
    ensures endValue < startValue ==> Interpolated(startValue, endValue, d) <= Interpolated(startValue, endValue, c)
  {
    var m := if startValue < endValue then endValue - startValue - 1 else startValue - endValue - 1;
    if 0 <= m {
      MulLeft(c, d, m);
      DivMonotone(c * m, d * m, 31);
    }
  }

  /**
   * Up to the unit count the gradient stays between its start and end values, and up to the end
   * unit it moves monotonically from the one towards the other.
   */
  lemma GradientShape(s: BlockState, i: nat, j: nat)
    requires CurveExists(s) && 0 <= s.GradientStartUnit
    requires i <= j < |s.Gradient| && (j < s.GradientEndUnit || j <= s.QuantizationUnitCount)
    ensures Min(s.GradientStartValue, s.GradientEndValue) <= GradientAt(s, j) <= Max(s.GradientStartValue, s.GradientEndValue)
    ensures j < s.GradientEndUnit && s.GradientStartValue <= s.GradientEndValue ==> GradientAt(s, i) <= GradientAt(s, j)
    ensures j < s.GradientEndUnit && s.GradientEndValue <= s.GradientStartValue ==> GradientAt(s, j) <= GradientAt(s, i)
  {
    var curves := GenerateGradientCurves();
    GradientCurvesShape();
    var unitCount := s.GradientEndUnit - s.GradientStartUnit;
    if Slopes(s) {
      var curve := curves[unitCount - 1];
      if s.GradientStartUnit <= j < s.GradientEndUnit {
        InterpolatedBetween(s.GradientStartValue, s.GradientEndValue, curve[j - s.GradientStartUnit]);
        if s.GradientStartUnit <= i {
          InterpolatedMonotone(s.GradientStartValue, s.GradientEndValue,
            curve[i - s.GradientStartUnit], curve[j - s.GradientStartUnit]);
        }
      } else if s.GradientStartUnit <= i < s.GradientEndUnit {
        InterpolatedBetween(s.GradientStartValue, s.GradientEndValue, curve[i - s.GradientStartUnit]);
      }
    }
  }

  // ---------------------------------------------------------------------------------------------
  // The precision mask

  /** The bonus unit i earns for a rise of more than one from the unit before it. */
  function RiseBonus(sf: seq<int>, count: int, i: nat): int
    requires i < |sf|
  {
    if 1 <= i < count && sf[i] - sf[i - 1] > 1 then Min(sf[i] - sf[i - 1] - 1, 5) else 0
  }

  /** The bonus unit i earns for a fall of more than one to the unit after it. */
  function FallBonus(sf: seq<int>, count: int, i: nat): int
    requires i + 1 < |sf|
  {
    if i + 1 < count && sf[i + 1] - sf[i] < -1 then Min(sf[i] - sf[i + 1] - 1, 5) else 0
  }

  function Mask(sf: seq<int>, count: int): (mask: seq<int>)
    requires |sf| == SCALE_FACTOR_SLOTS
    ensures |mask| == UNIT_SLOTS
    ensures forall i :: 0 <= i < UNIT_SLOTS ==> mask[i] == RiseBonus(sf, count, i) + FallBonus(sf, count, i)
  {
    seq(UNIT_SLOTS, i requires 0 <= i < UNIT_SLOTS => RiseBonus(sf, count, i) + FallBonus(sf, count, i))
  }

  /**
   * Each unit's mask is the bonus for the jump into it plus the bonus for the drop out of it;
   * the scale-factor differences are taken between neighbouring coded units.
   */
  method CalculateMask(channel: Channel, block: Block)
    requires |channel.ScaleFactors| == SCALE_FACTOR_SLOTS && block.QuantizationUnitCount <= UNIT_SLOTS
    modifies channel
    ensures channel.State() == old(channel.State()).(PrecisionMask := Mask(old(channel.ScaleFactors), block.QuantizationUnitCount))
  {
    var sf := channel.ScaleFactors;
    var count := block.QuantizationUnitCount;
    var mask := seq(UNIT_SLOTS, _ => 0);
    var i := 1;
    while i < count
      invariant 1 <= i && (i <= count || i == 1)
      invariant |mask| == UNIT_SLOTS
      invariant forall k :: 0 <= k < UNIT_SLOTS ==> (mask[k] ==
        (if k < i then RiseBonus(sf, count, k) else 0) + (if k + 1 < i then FallBonus(sf, count, k) else 0))
    {
      var delta := sf[i] - sf[i - 1];
      if delta > 1 {
        mask := mask[i := mask[i] + Min(delta - 1, 5)];
      } else if delta < -1 {
        mask := mask[i - 1 := mask[i - 1] + Min(-delta - 1, 5)];
      }
      i := i + 1;
    }
    channel.PrecisionMask := mask;
  }

  /** Every mask entry is between 0 and 10, and the units past the count get none. */
  lemma MaskBounds(sf: seq<int>, count: int, i: nat)
    requires |sf| == SCALE_FACTOR_SLOTS && i < UNIT_SLOTS
    ensures 0 <= Mask(sf, count)[i] <= 10
    ensures count <= i ==> Mask(sf, count)[i] == 0
    ensures sf[i] - 1 <= sf[i + 1] <= sf[i] + 1 && (i == 0 || sf[i - 1] - 1 <= sf[i] <= sf[i - 1] + 1)
      ==> Mask(sf, count)[i] == 0
  {
  }

  // ---------------------------------------------------------------------------------------------
  // Precisions

  /** The weighted modes scale a positive precision down to 1/2, 3/8 or 1/4 of itself. */
  function Weighted(mode: int, p: int): int
  {
    if p > 0 then
      if mode == 1 then p / 2
      else if mode == 2 then (3 * p) / 8
      else if mode == 3 then p / 4
      else p
    else p
  }

  /** The precision before clamping: the gradient subtracted from the scale factor (and mask). */
  function RawPrecision(mode: int, sf: int, mask: int, gradient: int): int
  {
    if mode != 0 then Weighted(mode, ToInt8(sf + mask - gradient)) else ToInt8(sf - gradient)
  }

  /** Precisions stay between 1 and 15; whatever lies above 15 becomes fine precision. */
  datatype UnitPrecision = UnitPrecision(Coarse: int, Fine: int)

  predicate PrecisionShaped(c: ChannelState, b: BlockState)
  {
    && |c.ScaleFactors| == SCALE_FACTOR_SLOTS && |c.PrecisionMask| == UNIT_SLOTS
    && |c.Precisions| == UNIT_SLOTS && |c.PrecisionsFine| == UNIT_SLOTS
    && |b.Gradient| == SCALE_FACTOR_SLOTS && b.QuantizationUnitCount <= UNIT_SLOTS
  }

  /** The clamped precision of a coded unit, before the boundary bonus. */
  function ClampedPrecision(c: ChannelState, b: BlockState, i: nat): (p: int)
    requires PrecisionShaped(c, b) && i < b.QuantizationUnitCount
    ensures 1 <= p
  {
    var raw := RawPrecision(b.GradientMode, c.ScaleFactors[i], c.PrecisionMask[i], b.Gradient[i]);
    if raw < 1 then 1 else raw
  }

  /** Unit i's precision after the boundary bonus has been given to the units below `limit`. */
  function Boosted(c: ChannelState, b: BlockState, i: nat, limit: int): int
    requires PrecisionShaped(c, b) && i < UNIT_SLOTS
  {
    var clamped := if i < b.QuantizationUnitCount then ClampedPrecision(c, b, i) else c.Precisions[i];
    if i < limit && i < b.GradientBoundary then ToInt8(clamped + 1) else clamped
  }

  /** Unit i's precisions after the calculation. */
  function PrecisionAt(c: ChannelState, b: BlockState, i: nat): UnitPrecision
    requires PrecisionShaped(c, b) && i < UNIT_SLOTS
  {
    var boosted := Boosted(c, b, i, b.GradientBoundary);
    if i < b.QuantizationUnitCount then
      if boosted > 15 then UnitPrecision(15, boosted - 15) else UnitPrecision(boosted, 0)
    else UnitPrecision(boosted, c.PrecisionsFine[i])
  }

  function Precisions(c: ChannelState, b: BlockState): (p: seq<int>)
    requires PrecisionShaped(c, b)
    ensures |p| == UNIT_SLOTS && forall i :: 0 <= i < UNIT_SLOTS ==> p[i] == PrecisionAt(c, b, i).Coarse
  {
    seq(UNIT_SLOTS, i requires 0 <= i < UNIT_SLOTS => PrecisionAt(c, b, i).Coarse)
  }

  function PrecisionsFine(c: ChannelState, b: BlockState): (p: seq<int>)
    requires PrecisionShaped(c, b)
    ensures |p| == UNIT_SLOTS && forall i :: 0 <= i < UNIT_SLOTS ==> p[i] == PrecisionAt(c, b, i).Fine
  {
    seq(UNIT_SLOTS, i requires 0 <= i < UNIT_SLOTS => PrecisionAt(c, b, i).Fine)
  }

  /**
   * Computes every coded unit's precision in four passes: the raw value, the clamp to at least 1,
   * the extra bit below the gradient boundary, and the split into coarse and fine parts.
   */
  method CalculatePrecisions(channel: Channel, block: Block)
    requires PrecisionShaped(channel.State(), block.State())
    modifies channel
    ensures channel.State() == old(channel.State()).(
      Precisions := Precisions(old(channel.State()), block.State()),
      PrecisionsFine := PrecisionsFine(old(channel.State()), block.State()))
  {
    var p, fine := AllocatePrecisions(channel.State(), block.State());
    channel.Precisions := p;
    channel.PrecisionsFine := fine;
  }

  /** The four passes of CalculatePrecisions, on the channel's and the block's values. */
  method AllocatePrecisions(c: ChannelState, b: BlockState) returns (p: seq<int>, fine: seq<int>)
    requires PrecisionShaped(c, b)
    ensures p == Precisions(c, b) && fine == PrecisionsFine(c, b)
  {
    var count := b.QuantizationUnitCount;
    p := c.Precisions;
    fine := c.PrecisionsFine;
    var i := 0;
    while i < count
      invariant 0 <= i && (i <= count || i == 0)
      invariant |p| == UNIT_SLOTS
      invariant forall k :: 0 <= k < UNIT_SLOTS ==> (p[k] ==
        if k < i then RawPrecision(b.GradientMode, c.ScaleFactors[k], c.PrecisionMask[k], b.Gradient[k]) else c.Precisions[k])
    {
      if b.GradientMode != 0 {
        var raw := ToInt8(c.ScaleFactors[i] + c.PrecisionMask[i] - b.Gradient[i]);
        p := p[i := Weighted(b.GradientMode, raw)];
      } else {
        p := p[i := ToInt8(c.ScaleFactors[i] - b.Gradient[i])];
      }
      i := i + 1;
    }
    i := 0;
    while i < count
      invariant 0 <= i && (i <= count || i == 0)
      invariant |p| == UNIT_SLOTS
      invariant forall k :: 0 <= k < UNIT_SLOTS ==> (p[k] ==
        if k < i then ClampedPrecision(c, b, k)
        else if k < count then RawPrecision(b.GradientMode, c.ScaleFactors[k], c.PrecisionMask[k], b.Gradient[k])
        else c.Precisions[k])
    {
      if p[i] < 1 {
        p := p[i := 1];
      }
      i := i + 1;
    }
    i := 0;
    while i < b.GradientBoundary && i < UNIT_SLOTS
      invariant 0 <= i <= UNIT_SLOTS
      invariant |p| == UNIT_SLOTS
      invariant forall k :: 0 <= k < UNIT_SLOTS ==> p[k] == Boosted(c, b, k, i)
    {
      p := p[i := ToInt8(p[i] + 1)];
      i := i + 1;
    }
    i := 0;
    while i < count
      invariant 0 <= i && (i <= count || i == 0)
      invariant |p| == UNIT_SLOTS && |fine| == UNIT_SLOTS
      invariant forall k :: 0 <= k < i ==> UnitPrecision(p[k], fine[k]) == PrecisionAt(c, b, k)
      invariant forall k :: i <= k < UNIT_SLOTS ==> p[k] == Boosted(c, b, k, b.GradientBoundary) && fine[k] == c.PrecisionsFine[k]
    {
      fine := fine[i := 0];
      if p[i] > 15 {
        fine := fine[i := p[i] - 15];
        p := p[i := 15];
      }
      i := i + 1;
    }
    assert p == Precisions(c, b) && fine == PrecisionsFine(c, b);
  }

  /**
   * When the scale factors (0 to 31), the mask (0 to 10) and the gradient (-64 to 64) are in the
   * ranges the decoder gives them, nothing wraps: a coded unit's coarse precision is between 1 and
   * 15, and coarse and fine together make the clamped precision plus the boundary bit.
   */
  lemma PrecisionsBounded(c: ChannelState, b: BlockState, i: nat)
    requires PrecisionShaped(c, b) && i < b.QuantizationUnitCount
    requires 0 <= c.ScaleFactors[i] <= 31 && 0 <= c.PrecisionMask[i] <= 10 && -64 <= b.Gradient[i] <= 64
    ensures 1 <= PrecisionAt(c, b, i).Coarse <= 15 && 0 <= PrecisionAt(c, b, i).Fine
    ensures PrecisionAt(c, b, i).Coarse + PrecisionAt(c, b, i).Fine
      == ClampedPrecision(c, b, i) + (if i < b.GradientBoundary then 1 else 0)
    ensures PrecisionAt(c, b, i).Fine == Max(0, ClampedPrecision(c, b, i) + (if i < b.GradientBoundary then 1 else 0) - 15)
    ensures ClampedPrecision(c, b, i) <= 105
  {
  }
}
