/**
 * `AudioTrack.getDefaultTrackList`: the channels of a stream grouped into stereo tracks, two
 * consecutive channels per track, the last track mono when the channel count is odd.
 */
module AudioTracks {
  import opened JsInt

  /** An audio track: how many channels it carries, which ones, and its mix settings. */
  datatype AudioTrack = AudioTrack(
    channelCount: int, channelLeft: int, channelRight: int,
    panning: int, volume: int, surroundPanning: int, flags: int)

  /** The `AudioTrack` constructor: surround panning and flags start at 0. */
  function NewAudioTrack(channelCount: int, channelLeft: int, channelRight: int, panning: int, volume: int): (t: AudioTrack)
    ensures t.channelCount == channelCount && t.channelLeft == channelLeft && t.channelRight == channelRight
    ensures t.panning == panning && t.volume == volume && t.surroundPanning == 0 && t.flags == 0
  {
    AudioTrack(channelCount, channelLeft, channelRight, panning, volume, 0, 0)
  }

  /** `Math.ceil(channelCount / 2)`, or no tracks at all when that is not positive. */
  function TrackCount(channelCount: int): (r: nat)
    ensures channelCount > 0 ==> 2 * r - 1 <= channelCount <= 2 * r
    ensures channelCount <= 0 ==> r == 0
  {
    if channelCount <= 0 then 0 else (channelCount + 1) / 2
  }

  /** The channels track i of a stream of `channelCount` channels holds: all that are left, at most two. */
  function TrackChannels(channelCount: int, i: int): int
  {
    Min(channelCount - i * 2, 2)
  }

  /** What `getDefaultTrackList` promises of track i: its channels, its left and right channel, no mix. */
  ghost predicate DefaultTrack(channelCount: int, i: int, t: AudioTrack)
  {
    && t.channelCount == TrackChannels(channelCount, i)
    && t.channelLeft == i * 2
    && t.channelRight == (if t.channelCount >= 2 then i * 2 + 1 else 0)
    && t.panning == 0 && t.volume == 0 && t.surroundPanning == 0 && t.flags == 0
  }

  /** `getDefaultTrackList(channelCount)`: track i holds channels 2i and 2i+1, the last one only 2i when none is left. */
  method GetDefaultTrackList(channelCount: int) returns (tracks: seq<AudioTrack>)
    ensures |tracks| == TrackCount(channelCount)
    ensures forall i :: 0 <= i < |tracks| ==> DefaultTrack(channelCount, i, tracks[i])
  {
    var trackCount := TrackCount(channelCount);
    tracks := [];
    var i := 0;
    while i < trackCount
      invariant 0 <= i <= trackCount && |tracks| == i
      invariant forall j :: 0 <= j < i ==> DefaultTrack(channelCount, j, tracks[j])
    {
      var trackChannelCount := Min(channelCount - i * 2, 2);
      tracks := tracks + [NewAudioTrack(trackChannelCount, i * 2, if trackChannelCount >= 2 then i * 2 + 1 else 0, 0, 0)];
      i := i + 1;
    }
  }

  /** The channel counts of the tracks, added up. */
  function ChannelSum(tracks: seq<AudioTrack>): int
  {
    if |tracks| == 0 then 0 else ChannelSum(tracks[..|tracks| - 1]) + tracks[|tracks| - 1].channelCount
  }

  /** Every default track is stereo except perhaps the last, which is mono when the count is odd. */
  lemma DefaultTrackChannels(channelCount: int, tracks: seq<AudioTrack>, i: nat)
    requires |tracks| == TrackCount(channelCount)
    requires forall j :: 0 <= j < |tracks| ==> DefaultTrack(channelCount, j, tracks[j])
    requires i < |tracks|
    ensures tracks[i].channelCount == (if i == |tracks| - 1 && channelCount % 2 == 1 then 1 else 2)
  {
  }

  /** The default tracks of the first j tracks hold 2j channels, those of all tracks every channel. */
  lemma {:induction false} DefaultTracksSum(channelCount: int, tracks: seq<AudioTrack>, j: nat)
    requires |tracks| == TrackCount(channelCount)
    requires forall i :: 0 <= i < |tracks| ==> DefaultTrack(channelCount, i, tracks[i])
    requires j <= |tracks|
    ensures ChannelSum(tracks[..j]) == if j == |tracks| && channelCount > 0 then channelCount else 2 * j
  {
    if j > 0 {
      DefaultTracksSum(channelCount, tracks, j - 1);
      assert tracks[..j][..j - 1] == tracks[..j - 1];
      DefaultTrackChannels(channelCount, tracks, j - 1);
    }
  }

  /** The default tracks carry as many channels as the stream has. */
  lemma DefaultTracksCover(channelCount: int, tracks: seq<AudioTrack>)
    requires channelCount >= 0 && |tracks| == TrackCount(channelCount)
    requires forall i :: 0 <= i < |tracks| ==> DefaultTrack(channelCount, i, tracks[i])
    ensures ChannelSum(tracks) == channelCount
  {
    DefaultTracksSum(channelCount, tracks, |tracks|);
    assert tracks[..|tracks|] == tracks;
  }

  /**
   * Every channel of the stream lies in exactly one default track: channel k is the left channel
   * of track k/2 when k is even and its right channel when k is odd, and no other track names it.
   */
  lemma DefaultTracksPlaceChannel(channelCount: int, tracks: seq<AudioTrack>, k: nat)
    requires |tracks| == TrackCount(channelCount) && k < channelCount
    requires forall i :: 0 <= i < |tracks| ==> DefaultTrack(channelCount, i, tracks[i])
    ensures k / 2 < |tracks|
    ensures if k % 2 == 0 then tracks[k / 2].channelLeft == k else tracks[k / 2].channelRight == k
    ensures forall i :: 0 <= i < |tracks| && i != k / 2 ==>
      tracks[i].channelLeft != k && (tracks[i].channelRight != k || k == 0)
  {
  }
}
