/**
 * The windowed overlap-add that ends every inverse MDCT: each frame's DCT-IV
 * output is folded with the history kept from the previous frame, and the new
 * history is stored for the next one.
 */
module Overlap {
  /**
   * Sample k of the output of an overlap-add over 2 * half samples of the DCT-IV
   * output d: the first half adds the previous history to the windowed second
   * half of d, the second half subtracts it from the windowed, negated and
   * mirrored second half of d.
   */
  function OverlapOutput(w: seq<real>, d: seq<real>, previous: seq<real>, half: nat, k: nat): real
    requires |w| >= 2 * half && |d| >= 2 * half && |previous| >= 2 * half && k < 2 * half
  {
    if k < half then w[k] * d[k + half] + previous[k]
    else w[k] * -d[3 * half - 1 - k] - previous[k]
  }

  /** Sample k of the history kept for the next frame: the mirrored, windowed first half of d. */
  function OverlapHistory(w: seq<real>, d: seq<real>, half: nat, k: nat): real
    requires |w| >= 2 * half && |d| >= 2 * half && k < 2 * half
  {
    if k < half then w[2 * half - 1 - k] * -d[half - 1 - k]
    else w[2 * half - 1 - k] * d[k - half]
  }

  /** The 2 * half output samples of one overlap-add. */
  function OverlapOutputs(w: seq<real>, d: seq<real>, previous: seq<real>, half: nat): (r: seq<real>)
    requires |w| >= 2 * half && |d| >= 2 * half && |previous| >= 2 * half
    ensures |r| == 2 * half
  {
    seq(2 * half, k requires 0 <= k < 2 * half => OverlapOutput(w, d, previous, half, k))
  }

  /** The 2 * half history samples one overlap-add leaves for the next frame. */
  function OverlapHistories(w: seq<real>, d: seq<real>, half: nat): (r: seq<real>)
    requires |w| >= 2 * half && |d| >= 2 * half
    ensures |r| == 2 * half
  {
    seq(2 * half, k requires 0 <= k < 2 * half => OverlapHistory(w, d, half, k))
  }

  /** The samples every overlap-add step computes, as values. */
  lemma OverlapTargets(w: seq<real>, d: seq<real>, previous: seq<real>, half: nat) returns (output: seq<real>, history: seq<real>)
    requires |w| >= 2 * half && |d| >= 2 * half && |previous| >= 2 * half
    ensures |output| == |history| == 2 * half
    ensures forall k {:trigger OverlapOutput(w, d, previous, half, k)} :: 0 <= k < 2 * half ==>
      output[k] == OverlapOutput(w, d, previous, half, k)
    ensures forall k {:trigger OverlapHistory(w, d, half, k)} :: 0 <= k < 2 * half ==>
      history[k] == OverlapHistory(w, d, half, k)
  {
    output := seq(2 * half, k requires 0 <= k < 2 * half => OverlapOutput(w, d, previous, half, k));
    history := seq(2 * half, k requires 0 <= k < 2 * half => OverlapHistory(w, d, half, k));
  }

  /** Targets that agree with every sample are the overlap-add's sample blocks. */
  lemma OverlapTargetsAre(w: seq<real>, d: seq<real>, previous: seq<real>, half: nat, output: seq<real>, history: seq<real>)
    requires |w| >= 2 * half && |d| >= 2 * half && |previous| >= 2 * half
    requires |output| == |history| == 2 * half
    requires forall k :: 0 <= k < 2 * half ==> output[k] == OverlapOutput(w, d, previous, half, k)
    requires forall k :: 0 <= k < 2 * half ==> history[k] == OverlapHistory(w, d, half, k)
    ensures output == OverlapOutputs(w, d, previous, half)
    ensures history == OverlapHistories(w, d, half)
  {
  }

  /** Silence in, silence out: a zero spectrum with zero history gives zero output and zero history. */
  lemma OverlapOfSilence(w: seq<real>, d: seq<real>, previous: seq<real>, half: nat)
    requires |w| >= 2 * half && |d| >= 2 * half && |previous| >= 2 * half
    requires forall j :: 0 <= j < 2 * half ==> d[j] == 0.0 && previous[j] == 0.0
    ensures forall k :: 0 <= k < 2 * half ==> OverlapOutputs(w, d, previous, half)[k] == 0.0
    ensures forall k :: 0 <= k < 2 * half ==> OverlapHistories(w, d, half)[k] == 0.0
  {
    forall k | 0 <= k < 2 * half
      ensures OverlapOutput(w, d, previous, half, k) == 0.0 && OverlapHistory(w, d, half, k) == 0.0
    {
      if k < half {
        assert d[k + half] == 0.0 && d[half - 1 - k] == 0.0;
      } else {
        assert d[3 * half - 1 - k] == 0.0 && d[k - half] == 0.0;
      }
    }
  }

  /** The overlap loop of `RunImdct`, over the window and the DCT-IV output it only reads. */
  method OverlapAdd(imdctWindow: seq<real>, dctOut: seq<real>, imdctPrevious: array<real>, output: array<real>, half: nat)
    requires |imdctWindow| >= 2 * half && |dctOut| >= 2 * half
    requires imdctPrevious.Length == 2 * half && output.Length >= 2 * half
    requires output != imdctPrevious
    modifies output, imdctPrevious
    ensures output[..2 * half] == OverlapOutputs(imdctWindow, dctOut, old(imdctPrevious[..]), half)
    ensures imdctPrevious[..] == OverlapHistories(imdctWindow, dctOut, half)
    ensures output[2 * half..] == old(output[2 * half..])
  {
    var size := 2 * half;
    ghost var W, D, previous := imdctWindow, dctOut, imdctPrevious[..];
    ghost var newOutput, newHistory := OverlapTargets(W, D, previous, half);
    var i := 0;
    while i < half
      invariant 0 <= i <= half
      invariant forall k :: 0 <= k < output.Length ==>
        output[k] == if k < i || half <= k < half + i then newOutput[k] else old(output[k])
      invariant forall k :: 0 <= k < size ==>
        imdctPrevious[k] == if k < i || half <= k < half + i then newHistory[k] else previous[k]
    {
      var front := imdctWindow[i] * dctOut[i + half] + imdctPrevious[i];
      var back := imdctWindow[i + half] * -dctOut[size - 1 - i] - imdctPrevious[i + half];
      var frontHistory := imdctWindow[size - 1 - i] * -dctOut[half - i - 1];
      var backHistory := imdctWindow[half - i - 1] * dctOut[i];
      OverlapValues(W, D, previous, half, i, front, back, frontHistory, backHistory);
      output[i] := front;
      output[i + half] := back;
      imdctPrevious[i] := frontHistory;
      imdctPrevious[i + half] := backHistory;
      i := i + 1;
    }
    assert output[..size] == newOutput;
    assert imdctPrevious[..] == newHistory;
    OverlapTargetsAre(W, D, previous, half, newOutput, newHistory);
  }

  /** The four samples step i of the overlap loop writes, in the form the loop computes them. */
  lemma OverlapValues(w: seq<real>, d: seq<real>, previous: seq<real>, half: nat, i: nat, front: real, back: real, frontHistory: real, backHistory: real)
    requires |w| >= 2 * half && |d| >= 2 * half && |previous| >= 2 * half && i < half
    requires front == w[i] * d[i + half] + previous[i]
    requires back == w[i + half] * -d[2 * half - 1 - i] - previous[i + half]
    requires frontHistory == w[2 * half - 1 - i] * -d[half - i - 1]
    requires backHistory == w[half - i - 1] * d[i]
    ensures front == OverlapOutput(w, d, previous, half, i)
    ensures back == OverlapOutput(w, d, previous, half, i + half)
    ensures frontHistory == OverlapHistory(w, d, half, i)
    ensures backHistory == OverlapHistory(w, d, half, i + half)
  {
    assert 3 * half - 1 - (i + half) == 2 * half - 1 - i;
    assert 2 * half - 1 - (i + half) == half - i - 1;
  }
}
