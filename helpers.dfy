/** Clamping and nested-array allocation shared by the decoder and the container code. */
module Helpers {

  const SHORT_MIN: int := -32768
  const SHORT_MAX: int := 32767

  /** Saturates a sample to the signed 16-bit range. */
  function Clamp16(value: int): (r: int)
    ensures SHORT_MIN <= r <= SHORT_MAX
    ensures SHORT_MIN <= value <= SHORT_MAX ==> r == value
    ensures value > SHORT_MAX ==> r == SHORT_MAX
    ensures value < SHORT_MIN ==> r == SHORT_MIN
  {
    if value > SHORT_MAX then SHORT_MAX
    else if value < SHORT_MIN then SHORT_MIN
    else value
  }

  /** `min` below the range, `max` above it, the value itself otherwise (`min` wins if the range is empty). */
  function Clamp(value: int, min: int, max: int): (r: int)
    ensures value < min ==> r == min
    ensures min <= value && value > max ==> r == max
    ensures min <= value <= max ==> r == value
    ensures min <= max ==> min <= r <= max
  {
    if value < min then min
    else if value > max then max
    else value
  }

  lemma ClampIdempotent(value: int, min: int, max: int)
    requires min <= max
    ensures Clamp(Clamp(value, min, max), min, max) == Clamp(value, min, max)
  {
  }

  lemma Clamp16IsClamp(value: int)
    ensures Clamp16(value) == Clamp(value, SHORT_MIN, SHORT_MAX)
  {
  }

  /** A nested array: inner levels hold sub-arrays, the innermost level a typed array of numbers. */
  datatype Jagged = Leaf(data: seq<int>) | Nest(items: seq<Jagged>)

  /** `j` has length `lengths[d]` at depth d, and every leaf is zero-filled. */
  ghost predicate Shaped(j: Jagged, lengths: seq<nat>)
    decreases |lengths|
  {
    |lengths| > 0 &&
    if |lengths| == 1 then
      j.Leaf? && |j.data| == lengths[0] && forall k :: 0 <= k < |j.data| ==> j.data[k] == 0
    else
      j.Nest? && |j.items| == lengths[0] &&
      forall k :: 0 <= k < |j.items| ==> Shaped(j.items[k], lengths[1..])
  }

  /** The nested array with dimensions `lengths`. */
  method CreateJaggedArray(lengths: seq<nat>) returns (j: Jagged)
    requires |lengths| > 0
    ensures Shaped(j, lengths)
  {
    j := InitializeJaggedArray(0, lengths);
  }

  /** The sub-array for levels `index..` of `lengths`: a recursive call per element of each inner level. */
  method InitializeJaggedArray(index: nat, lengths: seq<nat>) returns (j: Jagged)
    requires index < |lengths|
    ensures Shaped(j, lengths[index..])
    decreases |lengths| - index
  {
    if index == |lengths| - 1 {
      j := Leaf(seq(lengths[index], _ => 0));
    } else {
      var items: seq<Jagged> := [];
      var i := 0;
      while i < lengths[index]
        invariant i <= lengths[index] && |items| == i
        invariant forall k :: 0 <= k < i ==> Shaped(items[k], lengths[index + 1..])
      {
        var child := InitializeJaggedArray(index + 1, lengths);
        items := items + [child];
        i := i + 1;
      }
      j := Nest(items);
      assert lengths[index..][1..] == lengths[index + 1..];
    }
  }
}
