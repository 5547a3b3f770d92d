/**
 * `pcmFloatToShort`: the transform output of every channel of a frame, rounded, saturated to
 * 16 bits and stored into the window of the caller's `Uint16Array` outputs that the frame
 * covers. Output channels are numbered block by block, then channel by channel.
 */
module PcmOutput {
  import opened JsInt
  import opened Helpers
  import opened DecodeState

  /** A 16-bit slot read back as the signed sample it holds. */
  function SignedSample(u: uint16): (r: int)
    ensures SHORT_MIN <= r <= SHORT_MAX
    ensures ToUint16(r) == u
  {
    if u <= SHORT_MAX then u else u - 0x1_0000
  }

  /**
   * `Clamp16(Math.floor(sample + 0.5))` stored into a `Uint16Array`: read back as a signed
   * sample, the slot holds the sample rounded half up and saturated to 16 bits.
   */
  function ShortSample(sample: real): (r: uint16)
    ensures SignedSample(r) == Clamp16((sample + 0.5).Floor)
  {
    ToUint16(Clamp16((sample + 0.5).Floor))
  }

  /** A sample that rounds inside the 16-bit range is stored as its rounding. */
  lemma ShortSampleRounds(sample: real)
    requires SHORT_MIN as real <= sample + 0.5 < (SHORT_MAX + 1) as real
    ensures SignedSample(ShortSample(sample)) == (sample + 0.5).Floor
    ensures (sample + 0.5).Floor as real - 0.5 <= sample < (sample + 0.5).Floor as real + 0.5
  {
  }

  /** Samples beyond the 16-bit range saturate: the largest sample above, the smallest below. */
  lemma ShortSampleSaturates(sample: real)
    ensures sample + 0.5 >= (SHORT_MAX + 1) as real ==> ShortSample(sample) == SHORT_MAX
    ensures sample + 0.5 < SHORT_MIN as real ==> ShortSample(sample) == 0x8000
  {
  }

  /** A whole 16-bit sample goes through unchanged. */
  lemma ShortSampleOfWhole(n: int)
    requires SHORT_MIN <= n <= SHORT_MAX
    ensures SignedSample(ShortSample(n as real)) == n
  {
    assert (n as real + 0.5).Floor == n;
  }

  /** The channels of the blocks in output order: block by block, each block's channels in order. */
  function FrameChannels(blocks: seq<Block>): seq<Channel>
  {
    if |blocks| == 0 then [] else FrameChannels(blocks[..|blocks| - 1]) + blocks[|blocks| - 1].Channels
  }

  /** When every block holds as many channels as it counts, the outputs number the frame's channels. */
  lemma {:induction false} FrameChannelsCount(blocks: seq<Block>)
    requires forall i :: 0 <= i < |blocks| ==> |blocks[i].Channels| == blocks[i].ChannelCount
    ensures |FrameChannels(blocks)| == BlockChannels(blocks)
  {
    if |blocks| > 0 {
      FrameChannelsCount(blocks[..|blocks| - 1]);
    }
  }

  /** The channels of the first i blocks come first in the output order. */
  lemma {:induction false} FrameChannelsPrefix(blocks: seq<Block>, i: nat)
    requires i <= |blocks|
    ensures |FrameChannels(blocks[..i])| <= |FrameChannels(blocks)|
    ensures FrameChannels(blocks[..i]) == FrameChannels(blocks)[..|FrameChannels(blocks[..i])|]
    decreases |blocks| - i
  {
    if i < |blocks| {
      var n := |blocks|;
      FrameChannelsPrefix(blocks[..n - 1], i);
      assert blocks[..n - 1][..i] == blocks[..i];
      assert FrameChannels(blocks) == FrameChannels(blocks[..n - 1]) + blocks[n - 1].Channels;
    } else {
      assert blocks[..i] == blocks;
    }
  }

  /** Every output channel is a channel of one of the blocks. */
  lemma {:induction false} FrameChannelOf(blocks: seq<Block>, c: nat) returns (b: nat, k: nat)
    requires c < |FrameChannels(blocks)|
    ensures b < |blocks| && k < |blocks[b].Channels| && FrameChannels(blocks)[c] == blocks[b].Channels[k]
  {
    var n := |blocks|;
    var before := FrameChannels(blocks[..n - 1]);
    if c < |before| {
      b, k := FrameChannelOf(blocks[..n - 1], c);
    } else {
      b, k := n - 1, c - |before|;
    }
  }

  /** Block i's channels follow those of the blocks before it. */
  lemma FrameChannelsNext(blocks: seq<Block>, i: nat)
    requires i < |blocks|
    ensures FrameChannels(blocks[..i + 1]) == FrameChannels(blocks[..i]) + blocks[i].Channels
  {
    assert blocks[..i + 1][..i] == blocks[..i];
  }

  /** The output arrays are separate arrays. */
  predicate OutputsApart(pcmOut: seq<array<uint16>>)
  {
    forall i, j :: 0 <= i < j < |pcmOut| ==> pcmOut[i] != pcmOut[j]
  }

  /** The output arrays of the inner loop of `pcmFloatToShort`. */
  function Outputs(pcmOut: seq<array<uint16>>): set<object>
  {
    set c | 0 <= c < |pcmOut| :: pcmOut[c] as object
  }

  /**
   * The inner loop of `pcmFloatToShort`: `count` samples of `source`, from its start, into
   * `dest` from index `start`; every other slot keeps its value.
   */
  method PcmToShort(source: array<real>, dest: array<uint16>, start: nat, count: nat)
    requires count <= source.Length && start + count <= dest.Length
    modifies dest
    ensures forall s :: 0 <= s < dest.Length ==>
      dest[s] == if start <= s < start + count then ShortSample(source[s - start]) else old(dest[s])
  {
    var d := 0;
    while d < count
      invariant 0 <= d <= count
      invariant forall s :: 0 <= s < dest.Length ==>
        dest[s] == if start <= s < start + d then ShortSample(source[s - start]) else old(dest[s])
    {
      dest[start + d] := ShortSample(source[d]);
      d := d + 1;
    }
  }

  /**
   * `pcmFloatToShort(pcmOut, start)`: output channel c, the c-th channel of the frame in block
   * order, gets the frame's first `frameSamples` PCM samples of that channel at indices
   * [start, start + frameSamples); every other slot of every output keeps its value.
   */
  method PcmFloatToShort(blocks: seq<Block>, frameSamples: nat, pcmOut: seq<array<uint16>>, start: nat)
    requires |FrameChannels(blocks)| <= |pcmOut| && OutputsApart(pcmOut)
    requires forall c :: 0 <= c < |FrameChannels(blocks)| ==>
      frameSamples <= FrameChannels(blocks)[c].Pcm.Length && start + frameSamples <= pcmOut[c].Length
    modifies Outputs(pcmOut)
    ensures forall c, s :: 0 <= c < |pcmOut| && 0 <= s < pcmOut[c].Length ==>
      pcmOut[c][s] ==
        if c < |FrameChannels(blocks)| && start <= s < start + frameSamples
        then ShortSample(FrameChannels(blocks)[c].Pcm[s - start])
        else old(pcmOut[c][s])
  {
    ghost var chs := FrameChannels(blocks);
    var channelNum := 0;
    for b := 0 to |blocks|
      invariant channelNum == |FrameChannels(blocks[..b])| <= |chs|
      invariant forall c, s :: 0 <= c < |pcmOut| && 0 <= s < pcmOut[c].Length ==>
        pcmOut[c][s] ==
          if c < channelNum && start <= s < start + frameSamples
          then ShortSample(chs[c].Pcm[s - start])
          else old(pcmOut[c][s])
    {
      var channels := blocks[b].Channels;
      FrameChannelsNext(blocks, b);
      FrameChannelsPrefix(blocks, b + 1);
      assert forall k :: 0 <= k < |channels| ==> chs[channelNum + k] == channels[k];
      assert forall c :: 0 <= c < |chs| ==> chs[c].Pcm !in Outputs(pcmOut);
      label Before:
      WriteBlock(channels, frameSamples, pcmOut, channelNum, start);
      forall c, s | 0 <= c < |pcmOut| && 0 <= s < pcmOut[c].Length
        ensures pcmOut[c][s] ==
          if c < channelNum + |channels| && start <= s < start + frameSamples
          then ShortSample(chs[c].Pcm[s - start])
          else old(pcmOut[c][s])
      {
        if channelNum <= c < channelNum + |channels| && start <= s < start + frameSamples {
          assert chs[c] == channels[c - channelNum];
        } else {
          assert pcmOut[c][s] == old@Before(pcmOut[c][s]);
          if c < channelNum && start <= s < start + frameSamples {
            var b', k := FrameChannelOf(blocks, c);
          }
        }
      }
      channelNum := channelNum + |channels|;
    }
    assert blocks[..|blocks|] == blocks;
  }

  /**
   * The channel loop of `pcmFloatToShort` over one block: the block's channels go to the
   * outputs numbered from `first` on; every other slot of every output keeps its value.
   */
  method WriteBlock(channels: seq<Channel>, frameSamples: nat, pcmOut: seq<array<uint16>>, first: nat, start: nat)
    requires first + |channels| <= |pcmOut| && OutputsApart(pcmOut)
    requires forall k :: 0 <= k < |channels| ==>
      frameSamples <= channels[k].Pcm.Length && start + frameSamples <= pcmOut[first + k].Length
    modifies Outputs(pcmOut)
    ensures forall c, s :: 0 <= c < |pcmOut| && 0 <= s < pcmOut[c].Length ==>
      pcmOut[c][s] ==
        if first <= c < first + |channels| && start <= s < start + frameSamples
        then ShortSample(channels[c - first].Pcm[s - start])
        else old(pcmOut[c][s])
  {
    for k := 0 to |channels|
      invariant forall c, s :: 0 <= c < |pcmOut| && 0 <= s < pcmOut[c].Length ==>
        pcmOut[c][s] ==
          if first <= c < first + k && start <= s < start + frameSamples
          then ShortSample(channels[c - first].Pcm[s - start])
          else old(pcmOut[c][s])
    {
      WriteChannel(channels[k].Pcm, pcmOut, first + k, start, frameSamples);
    }
  }

  /** One pass of the channel loop: output c gets the channel's samples, the other outputs stay. */
  method WriteChannel(source: array<real>, pcmOut: seq<array<uint16>>, c: nat, start: nat, count: nat)
    requires c < |pcmOut| && OutputsApart(pcmOut)
    requires count <= source.Length && start + count <= pcmOut[c].Length
    modifies pcmOut[c]
    ensures forall s :: 0 <= s < pcmOut[c].Length ==>
      pcmOut[c][s] == if start <= s < start + count then ShortSample(source[s - start]) else old(pcmOut[c][s])
    ensures forall o, s :: 0 <= o < |pcmOut| && o != c && 0 <= s < pcmOut[o].Length ==>
      pcmOut[o][s] == old(pcmOut[o][s])
  {
    PcmToShort(source, pcmOut[c], start, count);
  }
}
