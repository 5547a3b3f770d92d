/**
 * `unpackFrame`: the blocks of a frame, in the order the channel configuration lists them, each
 * with its header checked against the frame's index within its superframe. A throw in one block
 * ends the frame; the blocks stay decodable, so the next frame can run them again.
 */
module FrameUnpacking {
  import opened Wrappers
  import opened ChannelConfigs
  import opened RuntimeTables
  import opened BitReading
  import opened DecodeState
  import opened Unpacking
  import opened BlockUnpacking

  /** A frame whose every block can run the stages: the frame is valid and each block's unit counts lie within the thirty units. */
  ghost predicate FrameDecodable(frame: Frame)
    reads frame, frame.Repr
  {
    && frame.Valid() && frame.Config.SampleRateIndex < 16
    && (forall i :: 0 <= i < |frame.Blocks| ==> IsBlockType(frame.Blocks[i].BlockType))
    && forall i :: 0 <= i < |frame.Blocks| ==> UnitCounts(frame.Blocks[i].State())
  }

  /**
   * The part of a valid frame that no decoding step can change, because it lies in constant
   * fields only: the blocks in their slots with their types, the channels in theirs, and who
   * owns which objects.
   */
  ghost predicate FrameShape(frame: Frame)
  {
    && frame in frame.Repr
    && |frame.Blocks| == frame.Config.ChannelConfig.BlockCount == |frame.Config.ChannelConfig.BlockTypes|
    && (forall i :: 0 <= i < |frame.Blocks| ==> BlockShape(frame, frame.Blocks[i], i))
    && (forall i, j :: 0 <= i < j < |frame.Blocks| ==> frame.Blocks[i].Repr !! frame.Blocks[j].Repr)
  }

  /** Block b at slot i of the frame, as far as constant fields go. */
  ghost predicate BlockShape(frame: Frame, b: Block, i: nat)
  {
    && i < |frame.Config.ChannelConfig.BlockTypes|
    && b in b.Repr && b.Repr <= frame.Repr && frame !in b.Repr
    && b.BlockIndex == i && b.BlockType == frame.Config.ChannelConfig.BlockTypes[i] && IsBlockType(b.BlockType)
    && b.Config == frame.Config && b.Tables == frame.Tables
    && b.ChannelCount == BlockTypeToChannelCount(b.BlockType) && |b.Channels| == b.ChannelCount
    && (forall k :: 0 <= k < |b.Channels| ==> ChannelShape(b, b.Channels[k], k))
    && (|b.Channels| == 2 ==> b.Channels[0].Repr !! b.Channels[1].Repr)
  }

  /** Channel c at slot k of block b, as far as constant fields go. */
  ghost predicate ChannelShape(b: Block, c: Channel, k: nat)
  {
    && c in c.Repr && c.Repr <= b.Repr && b !in c.Repr
    && c.ChannelIndex == k && c.Config == b.Config && c.Mdct.tables == b.Tables
  }

  /** A decodable frame has its shape, and each of its blocks is decodable. */
  lemma FrameParts(frame: Frame)
    requires FrameDecodable(frame)
    ensures FrameShape(frame) && BlocksDecodable(frame) && frame.Config.SampleRateIndex < 16
  {
    forall i | 0 <= i < |frame.Blocks|
      ensures BlockShape(frame, frame.Blocks[i], i) && Decodable(frame.Blocks[i])
    {
      assert frame.BlockOf(frame.Blocks[i], i);
      var b := frame.Blocks[i];
      forall k | 0 <= k < |b.Channels|
        ensures ChannelShape(b, b.Channels[k], k) && b.Channels[k].Valid()
      {
        assert b.ChannelOf(b.Channels[k], k);
      }
    }
  }

  /** Conversely, its shape and decodable blocks make the frame decodable. */
  lemma FrameWhole(frame: Frame)
    requires FrameShape(frame) && BlocksDecodable(frame) && frame.Config.SampleRateIndex < 16
    ensures FrameDecodable(frame)
  {
    forall i | 0 <= i < |frame.Blocks|
      ensures frame.BlockOf(frame.Blocks[i], i)
    {
      var b := frame.Blocks[i];
      assert BlockShape(frame, b, i) && Decodable(b);
      forall k | 0 <= k < |b.Channels|
        ensures b.ChannelOf(b.Channels[k], k)
      {
        assert ChannelShape(b, b.Channels[k], k);
      }
    }
  }

  /** Every block of the frame can run the stages. */
  ghost predicate BlocksDecodable(frame: Frame)
    reads frame.Blocks, set i, k | 0 <= i < |frame.Blocks| && 0 <= k < |frame.Blocks[i].Channels| :: frame.Blocks[i].Channels[k]
  {
    forall i :: 0 <= i < |frame.Blocks| ==> Decodable(frame.Blocks[i])
  }

  /** The states of the frame's blocks, in slot order. */
  function BlockStates(frame: Frame): (r: seq<BlockState>)
    reads frame.Blocks
    ensures |r| == |frame.Blocks| && forall i :: 0 <= i < |frame.Blocks| ==> r[i] == frame.Blocks[i].State()
  {
    seq(|frame.Blocks|, i requires 0 <= i < |frame.Blocks| reads frame.Blocks => frame.Blocks[i].State())
  }

  /** The states of each block's channels, in slot order. */
  function FrameChannelStates(frame: Frame): (r: seq<seq<ChannelState>>)
    reads frame.Blocks, set i, k | 0 <= i < |frame.Blocks| && 0 <= k < |frame.Blocks[i].Channels| :: frame.Blocks[i].Channels[k]
    ensures |r| == |frame.Blocks|
    ensures forall i :: 0 <= i < |frame.Blocks| ==> r[i] == ChannelStates(frame.Blocks[i].Channels)
  {
    seq(|frame.Blocks|, i requires 0 <= i < |frame.Blocks|
      reads frame.Blocks, set i, k | 0 <= i < |frame.Blocks| && 0 <= k < |frame.Blocks[i].Channels| :: frame.Blocks[i].Channels[k]
      => ChannelStates(frame.Blocks[i].Channels))
  }

  /** Where block j of a frame starts reading: where the block before it stopped, or `pos` for the first. */
  function StartOf(pos: nat, stops: seq<nat>, j: nat): nat
    requires j <= |stops|
  {
    if j == 0 then pos else stops[j - 1]
  }

  /** Appending a stop leaves where the earlier blocks start, and the next block starts at it. */
  lemma StartOfSnoc(pos: nat, stops: seq<nat>, next: nat)
    ensures StartOf(pos, stops, 0) == pos
    ensures forall j :: 0 <= j <= |stops| ==> StartOf(pos, stops + [next], j) == StartOf(pos, stops, j)
    ensures StartOf(pos, stops + [next], |stops| + 1) == next
  {
  }

  /** Block i of the frame: it is read as `BlockRead` says, only it changes, and every block stays decodable. */
  method UnpackFrameBlock(reader: BitReader, frame: Frame, i: nat, t: CodecTables)
    returns (r: Outcome<DecodeError>, ghost bodyEnd: nat)
    requires reader.Valid() && ScaleFactorTables(t) && SpectrumTables(t) && BexTables(t)
    requires FrameShape(frame) && BlocksDecodable(frame) && i < |frame.Blocks|
    modifies reader, frame.Blocks[i], frame.Blocks[i].Channels
    ensures reader.Valid() && unchanged(reader`buffer, reader`bits) && BlocksDecodable(frame)
    ensures old(BodyReady(frame.Blocks[i].State(), ChannelStates(frame.Blocks[i].Channels), frame.Blocks[i].BlockType, frame.Config))
    ensures BlockRead(old(frame.Blocks[i].State()), old(ChannelStates(frame.Blocks[i].Channels)),
      frame.Blocks[i].State(), ChannelStates(frame.Blocks[i].Channels), reader.bits, old(reader.position), reader.position,
      bodyEnd, r, frame.FrameIndex, frame.Blocks[i].BlockType, frame.Config, t)
    ensures forall j :: 0 <= j < |frame.Blocks| && j != i ==>
      frame.Blocks[j].State() == old(frame.Blocks[j].State())
      && ChannelStates(frame.Blocks[j].Channels) == old(ChannelStates(frame.Blocks[j].Channels))
  {
    hide *;
    BlockConfigAt(frame, i);
    BlocksDecodableAll(frame);
    r, bodyEnd := UnpackBlock(reader, frame.Blocks[i], frame.FrameIndex, t);
    forall j | 0 <= j < |frame.Blocks| && j != i
      ensures Decodable(frame.Blocks[j])
      ensures frame.Blocks[j].State() == old(frame.Blocks[j].State())
      ensures ChannelStates(frame.Blocks[j].Channels) == old(ChannelStates(frame.Blocks[j].Channels))
    {
      OtherBlockUnchanged(frame, i, j);
    }
    BlocksDecodableAll(frame);
  }

  /** Block i runs on the frame's configuration. */
  lemma BlockConfigAt(frame: Frame, i: nat)
    requires FrameShape(frame) && i < |frame.Blocks|
    ensures frame.Blocks[i].Config == frame.Config
  {
    assert BlockShape(frame, frame.Blocks[i], i);
  }

  /** `BlocksDecodable`, block by block. */
  lemma BlocksDecodableAll(frame: Frame)
    ensures BlocksDecodable(frame) <==> forall j :: 0 <= j < |frame.Blocks| ==> Decodable(frame.Blocks[j])
  {
  }

  /** Block j owns nothing of block i: neither the block object nor any of its channels. */
  lemma OtherBlockUnchanged(frame: Frame, i: nat, j: nat)
    requires FrameShape(frame) && i < |frame.Blocks| && j < |frame.Blocks| && i != j
    ensures frame.Blocks[j] != frame.Blocks[i]
    ensures forall k :: 0 <= k < |frame.Blocks[j].Channels| ==> frame.Blocks[j].Channels[k] !in frame.Blocks[i].Channels
  {
    var bi, bj := frame.Blocks[i], frame.Blocks[j];
    assert BlockShape(frame, bi, i) && BlockShape(frame, bj, j);
    assert bi.Repr !! bj.Repr by {
      if i < j {
        assert frame.Blocks[i].Repr !! frame.Blocks[j].Repr;
      } else {
        assert frame.Blocks[j].Repr !! frame.Blocks[i].Repr;
      }
    }
    forall k | 0 <= k < |bj.Channels|
      ensures bj.Channels[k] !in bi.Channels
    {
      assert ChannelShape(bj, bj.Channels[k], k);
      forall m | 0 <= m < |bi.Channels|
        ensures bj.Channels[k] != bi.Channels[m]
      {
        assert ChannelShape(bi, bi.Channels[m], m);
      }
    }
  }

  /** The block and channel objects of the frame: the fields unpacking writes; no sample buffer is among them. */
  ghost function FrameObjects(frame: Frame): set<object>
  {
    (set i | 0 <= i < |frame.Blocks| :: frame.Blocks[i] as object)
      + (set i, k | 0 <= i < |frame.Blocks| && 0 <= k < |frame.Blocks[i].Channels| :: frame.Blocks[i].Channels[k] as object)
  }

  lemma BlockObjectsInFrame(frame: Frame, i: nat)
    requires i < |frame.Blocks|
    ensures {frame.Blocks[i] as object} + (set k | 0 <= k < |frame.Blocks[i].Channels| :: frame.Blocks[i].Channels[k] as object) <= FrameObjects(frame)
    ensures frame !in FrameObjects(frame)
  {
  }

  /**
   * `unpackFrame`: every block in order, each checked against the frame's index, each read from
   * where the one before stopped. `stops[j]` is where block j leaves the reader and
   * `bodyEnds[j]` where its body stops; the blocks read are those before a throw and the one
   * that threw, every other block keeps its state, and the frame stays decodable.
   */
  method UnpackFrame(reader: BitReader, frame: Frame, t: CodecTables)
    returns (r: Outcome<DecodeError>, ghost stops: seq<nat>, ghost bodyEnds: seq<nat>)
    requires reader.Valid() && ScaleFactorTables(t) && SpectrumTables(t) && BexTables(t) && FrameDecodable(frame)
    modifies reader, FrameObjects(frame)
    ensures reader.Valid() && unchanged(reader`buffer, reader`bits) && FrameDecodable(frame)
    ensures |stops| == |bodyEnds| <= |frame.Blocks|
    ensures r.Pass? ==> |stops| == |frame.Blocks|
    ensures r.Fail? ==> 0 < |stops|
    ensures reader.position == StartOf(old(reader.position), stops, |stops|)
    ensures forall j :: 0 <= j < |frame.Blocks| ==>
      old(BodyReady(frame.Blocks[j].State(), ChannelStates(frame.Blocks[j].Channels), frame.Blocks[j].BlockType, frame.Config))
    ensures forall j :: 0 <= j < |stops| ==>
      BlockRead(old(frame.Blocks[j].State()), old(ChannelStates(frame.Blocks[j].Channels)),
        frame.Blocks[j].State(), ChannelStates(frame.Blocks[j].Channels), reader.bits,
        StartOf(old(reader.position), stops, j), stops[j], bodyEnds[j], if j + 1 == |stops| then r else Pass,
        frame.FrameIndex, frame.Blocks[j].BlockType, frame.Config, t)
    ensures forall j :: |stops| <= j < |frame.Blocks| ==>
      frame.Blocks[j].State() == old(frame.Blocks[j].State())
      && ChannelStates(frame.Blocks[j].Channels) == old(ChannelStates(frame.Blocks[j].Channels))
  {
    hide *;
    FrameParts(frame);
    BlocksDecodableAll(frame);
    ghost var pos := reader.position;
    ghost var before := BlockStates(frame);
    ghost var beforeChannels := FrameChannelStates(frame);
    forall j | 0 <= j < |frame.Blocks|
      ensures BodyReady(before[j], beforeChannels[j], frame.Blocks[j].BlockType, frame.Config)
    {
      BlockConfigAt(frame, j);
      DecodableBodyReady(frame.Blocks[j]);
    }
    r := Pass;
    stops, bodyEnds := [], [];
    StartOfSnoc(pos, stops, pos);
    var i := 0;
    while i < |frame.Blocks|
      invariant 0 <= i <= |frame.Blocks| && FrameShape(frame) && |stops| == |bodyEnds| == i
      invariant reader.Valid() && unchanged(reader`buffer, reader`bits) && BlocksDecodable(frame)
      invariant reader.position == StartOf(pos, stops, i) && r.Pass?
      invariant forall j :: 0 <= j < i ==>
        BlockRead(before[j], beforeChannels[j], frame.Blocks[j].State(), ChannelStates(frame.Blocks[j].Channels), reader.bits,
          StartOf(pos, stops, j), stops[j], bodyEnds[j], Pass, frame.FrameIndex, frame.Blocks[j].BlockType, frame.Config, t)
      invariant forall j :: i <= j < |frame.Blocks| ==>
        frame.Blocks[j].State() == before[j] && ChannelStates(frame.Blocks[j].Channels) == beforeChannels[j]
    {
      BlockObjectsInFrame(frame, i);
      ghost var bodyEnd;
      r, bodyEnd := UnpackFrameBlock(reader, frame, i, t);
      StartOfSnoc(pos, stops, reader.position);
      stops, bodyEnds := stops + [reader.position], bodyEnds + [bodyEnd];
      if r.Fail? {
        FrameWhole(frame);
        return;
      }
      i := i + 1;
    }
    FrameWhole(frame);
  }
}
