/**
 * `Atrac9Format`: the decoded audio of a whole stream. Each superframe's PCM lands in a buffer
 * of one superframe per channel, and `copyBuffer` moves it to its place in the output, less the
 * encoder delay: output sample j is stream sample j + EncoderDelay.
 */
module Atrac9Formats {
  import opened JsInt
  import opened Wrappers
  import opened Helpers
  import opened PcmOutput
  import opened Config

  /** The errors `copyBuffer` raises: an empty buffer list, a missing input channel, an output too short. */
  datatype CopyError = EmptyBuffers | MissingChannel(channel: nat) | ChannelOverflow(channel: nat)

  /** The errors of `decode`: a negative sample count for the output arrays, a superframe the decoder rejects. */
  datatype FormatError = NegativeSampleCount | DecodeFailed(superframe: nat)

  /** Where `copyBuffer` copies from, to, and how many samples. */
  datatype Window = Window(srcStart: int, destStart: int, length: int)

  /** The index of the buffer's first sample in the output: the superframe's place less the delay. */
  function CurrentIndex(bufferLength: int, startIndex: int, bufferIndex: int): int
  {
    bufferIndex * bufferLength - startIndex
  }

  /** The window `copyBuffer` computes from the first input's and the first output's lengths. */
  function CopyWindow(bufferLength: int, outLength: int, startIndex: int, bufferIndex: int): Window
  {
    var currentIndex := CurrentIndex(bufferLength, startIndex, bufferIndex);
    var remainingElements := Min(outLength - currentIndex, outLength);
    var srcStart := Clamp(0 - currentIndex, 0, bufferLength);
    var destStart := Max(currentIndex, 0);
    Window(srcStart, destStart, Min(bufferLength - srcStart, remainingElements))
  }

  /** Output slot d is inside the window. */
  predicate InWindow(w: Window, d: int)
  {
    w.length > 0 && w.destStart <= d < w.destStart + w.length
  }

  /** Output slot d has a buffer sample to take: it is an output slot and `d - currentIndex` a buffer slot. */
  predicate Covered(currentIndex: int, bufferLength: int, outLength: int, d: int)
  {
    0 <= d < outLength && 0 <= d - currentIndex < bufferLength
  }

  /**
   * The window is exactly the overlap of the buffer, placed at `currentIndex`, with the output:
   * it copies every output slot the buffer covers and no other, and slot d takes buffer sample
   * `d - currentIndex`.
   */
  lemma CopyWindowExact(bufferLength: nat, outLength: nat, startIndex: int, bufferIndex: int)
    ensures var w := CopyWindow(bufferLength, outLength, startIndex, bufferIndex);
      var cur := CurrentIndex(bufferLength, startIndex, bufferIndex);
      && (w.length > 0 ==>
           0 <= w.srcStart && w.srcStart + w.length <= bufferLength && 0 <= w.destStart
           && w.destStart + w.length <= outLength && w.destStart - w.srcStart == cur)
      && forall d :: InWindow(w, d) <==> Covered(cur, bufferLength, outLength, d)
  {
  }

  /** The part of an input of `inputLength` samples that `slice(srcStart, srcStart + length)` takes. */
  function PieceStart(inputLength: nat, w: Window): nat
  {
    Max(Min(w.srcStart, inputLength), 0)
  }

  function PieceEnd(inputLength: nat, w: Window): nat
  {
    Max(Min(w.srcStart + w.length, inputLength), PieceStart(inputLength, w))
  }

  /** Channel c has an input, and its piece fits its output from `destStart`, as `set` demands. */
  predicate ChannelFits(bufferIn: seq<array<uint16>>, bufferOut: seq<array<uint16>>, w: Window, c: nat)
  {
    c < |bufferIn| && c < |bufferOut| &&
    w.destStart + PieceEnd(bufferIn[c].Length, w) - PieceStart(bufferIn[c].Length, w) <= bufferOut[c].Length
  }

  /** The error of the first channel that does not fit. */
  function Misfit(bufferIn: seq<array<uint16>>, c: nat): CopyError
  {
    if c < |bufferIn| then ChannelOverflow(c) else MissingChannel(c)
  }

  /** Slot s of output c takes input sample `PieceStart + s - destStart` when it lies in the channel's piece. */
  predicate InPiece(inputLength: nat, w: Window, s: int)
  {
    w.length > 0 && 0 <= w.destStart <= s < w.destStart + PieceEnd(inputLength, w) - PieceStart(inputLength, w)
  }

  /** The input lists are separate from the output arrays, and the outputs from each other. */
  predicate Separate(bufferIn: seq<array<uint16>>, bufferOut: seq<array<uint16>>)
  {
    OutputsApart(bufferOut) && forall c, d :: 0 <= c < |bufferIn| && 0 <= d < |bufferOut| ==> bufferIn[c] != bufferOut[d]
  }

  /**
   * `copyBuffer(bufferIn, bufferOut, startIndex, bufferIndex)`: fails on an empty list. Otherwise,
   * with the window of `CopyWindow`, nothing is written when its length is not positive; else the
   * channels are copied in order, each one's piece of its input into its output from
   * `destStart`, until a channel has no input or its piece overruns its output, which fails.
   * Every slot not copied keeps its value.
   */
  method CopyBuffer(bufferIn: seq<array<uint16>>, bufferOut: seq<array<uint16>>, startIndex: int, bufferIndex: int)
    returns (r: Outcome<CopyError>, ghost copied: nat)
    requires Separate(bufferIn, bufferOut)
    modifies Outputs(bufferOut)
    ensures (|bufferIn| == 0 || |bufferOut| == 0) ==> r == Fail(EmptyBuffers) && copied == 0
    ensures |bufferIn| > 0 && |bufferOut| > 0 ==>
      var w := CopyWindow(bufferIn[0].Length, bufferOut[0].Length, startIndex, bufferIndex);
      && (r.Pass? <==> w.length <= 0 || forall c :: 0 <= c < |bufferOut| ==> ChannelFits(bufferIn, bufferOut, w, c))
      && (w.length <= 0 ==> copied == 0)
      && (w.length > 0 && r.Pass? ==> copied == |bufferOut|)
      && (r.Fail? ==> copied < |bufferOut| && r.error == Misfit(bufferIn, copied) && !ChannelFits(bufferIn, bufferOut, w, copied))
      && (forall c :: 0 <= c < copied ==> ChannelFits(bufferIn, bufferOut, w, c))
      && forall c, s :: 0 <= c < |bufferOut| && 0 <= s < bufferOut[c].Length ==>
           bufferOut[c][s] ==
             if c < copied && c < |bufferIn| && InPiece(bufferIn[c].Length, w, s)
             then bufferIn[c][PieceStart(bufferIn[c].Length, w) + s - w.destStart]
             else old(bufferOut[c][s])
  {
    copied := 0;
    if |bufferIn| == 0 || |bufferOut| == 0 {
      return Fail(EmptyBuffers), copied;
    }
    var w := CopyWindow(bufferIn[0].Length, bufferOut[0].Length, startIndex, bufferIndex);
    if w.length <= 0 {
      return Pass, copied;
    }
    for c := 0 to |bufferOut|
      invariant copied == c
      invariant forall k :: 0 <= k < c ==> ChannelFits(bufferIn, bufferOut, w, k)
      invariant forall k, s :: 0 <= k < |bufferOut| && 0 <= s < bufferOut[k].Length ==>
        bufferOut[k][s] ==
          if k < c && k < |bufferIn| && InPiece(bufferIn[k].Length, w, s)
          then bufferIn[k][PieceStart(bufferIn[k].Length, w) + s - w.destStart]
          else old(bufferOut[k][s])
    {
      if c >= |bufferIn| {
        assert !ChannelFits(bufferIn, bufferOut, w, c);
        return Fail(MissingChannel(c)), copied;
      }
      var lo := PieceStart(bufferIn[c].Length, w);
      var hi := PieceEnd(bufferIn[c].Length, w);
      if w.destStart + (hi - lo) > bufferOut[c].Length {
        assert !ChannelFits(bufferIn, bufferOut, w, c);
        return Fail(ChannelOverflow(c)), copied;
      }
      SetChannel(bufferIn[c], lo, hi, bufferOut, c, w.destStart);
      copied := c + 1;
    }
    r := Pass;
  }

  /** `bufferOut[c].set(source.slice(lo, hi), destStart)`: the piece lands from `destStart`, nothing else changes. */
  method SetChannel(source: array<uint16>, lo: nat, hi: nat, bufferOut: seq<array<uint16>>, c: nat, destStart: nat)
    requires lo <= hi <= source.Length && c < |bufferOut| && destStart + (hi - lo) <= bufferOut[c].Length
    requires OutputsApart(bufferOut) && forall d :: 0 <= d < |bufferOut| ==> source != bufferOut[d]
    modifies bufferOut[c]
    ensures forall s :: 0 <= s < bufferOut[c].Length ==>
      bufferOut[c][s] == if destStart <= s < destStart + (hi - lo) then source[lo + s - destStart] else old(bufferOut[c][s])
    ensures forall d, s :: 0 <= d < |bufferOut| && d != c && 0 <= s < bufferOut[d].Length ==> bufferOut[d][s] == old(bufferOut[d][s])
  {
    var dest := bufferOut[c];
    for k := 0 to hi - lo
      invariant forall s :: 0 <= s < dest.Length ==>
        dest[s] == if destStart <= s < destStart + k then source[lo + s - destStart] else old(dest[s])
    {
      dest[destStart + k] := source[lo + k];
    }
  }

  /** An `Atrac9Format`: the stream's superframes, its configuration, encoder delay and sample count. */
  datatype Atrac9Format = Atrac9Format(AudioData: seq<seq<byte>>, Config: Atrac9Config, EncoderDelay: int, SampleCount: int)

  /** Every decoded superframe holds `channels` channels of `superframeSamples` samples. */
  predicate StreamShaped(stream: seq<Option<seq<seq<uint16>>>>, channels: nat, superframeSamples: nat)
  {
    forall i :: 0 <= i < |stream| && stream[i].Some? ==>
      |stream[i].value| == channels && forall c :: 0 <= c < channels ==> |stream[i].value[c]| == superframeSamples
  }

  /**
   * Sample n of channel c of the decoded stream, its superframes laid end to end; 0 before the
   * stream, after it, or in a superframe the decoder could not decode.
   */
  function StreamSample(stream: seq<Option<seq<seq<uint16>>>>, channels: nat, superframeSamples: nat, c: nat, n: int): uint16
    requires superframeSamples > 0 && StreamShaped(stream, channels, superframeSamples) && c < channels
  {
    if 0 <= n && n / superframeSamples < |stream| && stream[n / superframeSamples].Some?
    then stream[n / superframeSamples].value[c][n % superframeSamples]
    else 0
  }

  /** `createJaggedArray(Uint16Array, count, length)`: `count` new zero-filled arrays of `length` samples. */
  method NewPcmBuffers(count: nat, length: nat) returns (buffers: seq<array<uint16>>)
    ensures |buffers| == count && OutputsApart(buffers)
    ensures forall c :: 0 <= c < count ==> fresh(buffers[c]) && buffers[c].Length == length
    ensures forall c, s :: 0 <= c < count && 0 <= s < buffers[c].Length ==> buffers[c][s] == 0
  {
    buffers := [];
    for c := 0 to count
      invariant |buffers| == c && OutputsApart(buffers)
      invariant forall k :: 0 <= k < c ==> fresh(buffers[k]) && buffers[k].Length == length
      invariant forall k, s :: 0 <= k < c && 0 <= s < buffers[k].Length ==> buffers[k][s] == 0
    {
      var buffer := new uint16[length](_ => 0);
      buffers := buffers + [buffer];
    }
  }

  /**
   * What `decoder.decode(AudioData[i], pcmBuffer)` leaves in the superframe buffer: the
   * superframe's samples, channel by channel.
   */
  method LoadSuperframe(pcmBuffer: seq<array<uint16>>, samples: seq<seq<uint16>>)
    requires |samples| == |pcmBuffer| && OutputsApart(pcmBuffer)
    requires forall c :: 0 <= c < |pcmBuffer| ==> |samples[c]| == pcmBuffer[c].Length
    modifies Outputs(pcmBuffer)
    ensures forall c, s :: 0 <= c < |pcmBuffer| && 0 <= s < pcmBuffer[c].Length ==> pcmBuffer[c][s] == samples[c][s]
  {
    for c := 0 to |pcmBuffer|
      invariant forall k, s :: 0 <= k < c && 0 <= s < pcmBuffer[k].Length ==> pcmBuffer[k][s] == samples[k][s]
    {
      var buffer := pcmBuffer[c];
      forall s | 0 <= s < buffer.Length {
        buffer[s] := samples[c][s];
      }
    }
  }

  /**
   * `decode()`: the output holds, for every channel, `SampleCount` samples, and output sample j
   * is sample j + EncoderDelay of the decoded stream: the encoder delay is trimmed from the
   * front and the stream cut or zero-padded to the sample count. It fails when the sample count
   * is negative, and at the first superframe the decoder cannot decode.
   */
  method Decode(format: Atrac9Format, stream: seq<Option<seq<seq<uint16>>>>) returns (r: Result<seq<array<uint16>>, FormatError>)
    requires ValidConfig(format.Config)
    requires |stream| == |format.AudioData|
    requires StreamShaped(stream, format.Config.ChannelCount, format.Config.SuperframeSamples)
    ensures format.SampleCount < 0 ==> r == Failure(NegativeSampleCount)
    ensures format.SampleCount >= 0 && (exists i :: 0 <= i < |stream| && stream[i].None?) ==>
      r.Failure? && r.error.DecodeFailed? && r.error.superframe < |stream| && stream[r.error.superframe].None?
      && forall i :: 0 <= i < r.error.superframe ==> stream[i].Some?
    ensures format.SampleCount >= 0 && (forall i :: 0 <= i < |stream| ==> stream[i].Some?) ==>
      && r.Success? && |r.value| == format.Config.ChannelCount
      && (forall c :: 0 <= c < |r.value| ==> fresh(r.value[c]) && r.value[c].Length == format.SampleCount)
      && forall c, j :: 0 <= c < |r.value| && 0 <= j < r.value[c].Length ==>
           r.value[c][j] == StreamSample(stream, format.Config.ChannelCount, format.Config.SuperframeSamples, c, j + format.EncoderDelay)
  {
    var config := format.Config;
    var channelCount, superframeSamples := config.ChannelCount, config.SuperframeSamples;
    if format.SampleCount < 0 {
      return Failure(NegativeSampleCount);
    }
    var pcmOut := NewPcmBuffers(channelCount, format.SampleCount);
    var pcmBuffer := NewPcmBuffers(channelCount, superframeSamples);
    assert Separate(pcmBuffer, pcmOut);
    for i := 0 to |stream|
      invariant forall k :: 0 <= k < i ==> stream[k].Some?
      invariant Trimmed(pcmOut, stream, channelCount, superframeSamples, format.EncoderDelay, i)
    {
      if stream[i].None? {
        return Failure(DecodeFailed(i));
      }
      CopySuperframe(pcmBuffer, pcmOut, stream, channelCount, superframeSamples, format.EncoderDelay, i);
    }
    forall c, j | 0 <= c < channelCount && 0 <= j < format.SampleCount
      ensures pcmOut[c][j] == StreamSample(stream, channelCount, superframeSamples, c, j + format.EncoderDelay)
    {
      StreamSamplePast(stream, channelCount, superframeSamples, c, j + format.EncoderDelay);
    }
    r := Success(pcmOut);
  }

  /** Past the last superframe the stream is silent. */
  lemma StreamSamplePast(stream: seq<Option<seq<seq<uint16>>>>, channels: nat, superframeSamples: nat, c: nat, n: int)
    requires superframeSamples > 0 && StreamShaped(stream, channels, superframeSamples) && c < channels
    ensures n >= |stream| * superframeSamples ==> StreamSample(stream, channels, superframeSamples, c, n) == 0
  {
    if n >= |stream| * superframeSamples {
      var q := n / superframeSamples;
      assert n == q * superframeSamples + n % superframeSamples;
      assert (q + 1) * superframeSamples == q * superframeSamples + superframeSamples;
      if q < |stream| {
        MulLeft(q + 1, |stream|, superframeSamples);
      }
    }
  }

  /**
   * The output after the first `count` superframes: slot j of channel c holds stream sample
   * j + delay when that sample lies in those superframes, and 0 otherwise.
   */
  ghost predicate Trimmed(pcmOut: seq<array<uint16>>, stream: seq<Option<seq<seq<uint16>>>>, channels: nat, superframeSamples: nat,
                          delay: int, count: nat)
    requires superframeSamples > 0 && StreamShaped(stream, channels, superframeSamples)
    reads Outputs(pcmOut)
  {
    forall c, j :: 0 <= c < channels && c < |pcmOut| && 0 <= j < pcmOut[c].Length ==>
      pcmOut[c][j] == if j + delay < count * superframeSamples then StreamSample(stream, channels, superframeSamples, c, j + delay) else 0
  }

  /** One pass of `decode`'s loop: the superframe decoded into the buffer, then copied to its place in the output. */
  method CopySuperframe(pcmBuffer: seq<array<uint16>>, pcmOut: seq<array<uint16>>, stream: seq<Option<seq<seq<uint16>>>>,
                        channels: nat, superframeSamples: nat, delay: int, i: nat)
    requires superframeSamples > 0 && StreamShaped(stream, channels, superframeSamples)
    requires i < |stream| && stream[i].Some? && channels > 0
    requires Separate(pcmBuffer, pcmOut) && OutputsApart(pcmBuffer) && |pcmBuffer| == channels == |pcmOut|
    requires forall c :: 0 <= c < channels ==> pcmBuffer[c].Length == superframeSamples && pcmOut[c].Length == pcmOut[0].Length
    requires Trimmed(pcmOut, stream, channels, superframeSamples, delay, i)
    modifies Outputs(pcmBuffer), Outputs(pcmOut)
    ensures Trimmed(pcmOut, stream, channels, superframeSamples, delay, i + 1)
  {
    LoadSuperframe(pcmBuffer, stream[i].value);
    var sampleCount := pcmOut[0].Length;
    ghost var w := CopyWindow(superframeSamples, sampleCount, delay, i);
    CopyWindowExact(superframeSamples, sampleCount, delay, i);
    assert w.length > 0 ==> forall c :: 0 <= c < channels ==> ChannelFits(pcmBuffer, pcmOut, w, c);
    var copy, copied := CopyBuffer(pcmBuffer, pcmOut, delay, i);
    forall c, j | 0 <= c < channels && 0 <= j < sampleCount
      ensures pcmOut[c][j] == if j + delay < (i + 1) * superframeSamples
                              then StreamSample(stream, channels, superframeSamples, c, j + delay) else 0
    {
      var n := j + delay;
      if i * superframeSamples <= n < (i + 1) * superframeSamples {
        assert Covered(CurrentIndex(superframeSamples, delay, i), superframeSamples, sampleCount, j);
        DivModUnique(n, superframeSamples, i, n - i * superframeSamples);
      }
    }
  }
}
