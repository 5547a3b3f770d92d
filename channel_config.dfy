/**
 * The block layout of a channel configuration: the block types in stream order and the
 * number of output channels they carry.
 */
module ChannelConfigs {

  /** Codes of the block types. The type is a numeric enumeration, so any other number can reach the switch. */
  const MONO: int := 0
  const STEREO: int := 1
  const LFE: int := 2

  predicate IsBlockType(blockType: int)
  {
    blockType == MONO || blockType == STEREO || blockType == LFE
  }

  /** Channels of a block: one for mono and LFE blocks, two for stereo, none for any other code. */
  function BlockTypeToChannelCount(blockType: int): (r: nat)
    ensures r == 2 <==> blockType == STEREO
    ensures r == 1 <==> blockType == MONO || blockType == LFE
    ensures r == 0 <==> !IsBlockType(blockType)
  {
    if blockType == MONO then 1
    else if blockType == STEREO then 2
    else if blockType == LFE then 1
    else 0
  }

  /** The running total of the `reduce` over the block types, taken left to right. */
  function TotalChannels(blockTypes: seq<int>): nat
  {
    if |blockTypes| == 0 then 0
    else TotalChannels(blockTypes[..|blockTypes| - 1]) + BlockTypeToChannelCount(blockTypes[|blockTypes| - 1])
  }

  datatype ChannelConfig = ChannelConfig(BlockCount: nat, BlockTypes: seq<int>, ChannelCount: nat)

  function NewChannelConfig(blockTypes: seq<int>): (c: ChannelConfig)
    ensures c.BlockCount == |blockTypes| && c.BlockTypes == blockTypes
    ensures c.ChannelCount == TotalChannels(blockTypes)
  {
    ChannelConfig(|blockTypes|, blockTypes, TotalChannels(blockTypes))
  }

  /** The channel total is additive over concatenation, so it is the sum over the blocks in any grouping. */
  lemma {:induction false} TotalChannelsAppend(a: seq<int>, b: seq<int>)
    ensures TotalChannels(a + b) == TotalChannels(a) + TotalChannels(b)
    decreases |b|
  {
    if |b| == 0 {
      assert a + b == a;
    } else {
      var b' := b[..|b| - 1];
      assert (a + b)[..|a + b| - 1] == a + b';
      TotalChannelsAppend(a, b');
    }
  }

  /** Each block's own count, seen through the total of a one-block list. */
  lemma TotalOfOne(blockType: int)
    ensures TotalChannels([blockType]) == BlockTypeToChannelCount(blockType)
  {
    assert [blockType][..0] == [];
  }

  /** With every code a block type, each block carries one or two channels. */
  lemma {:induction false} TotalChannelsBounds(blockTypes: seq<int>)
    requires forall i :: 0 <= i < |blockTypes| ==> IsBlockType(blockTypes[i])
    ensures |blockTypes| <= TotalChannels(blockTypes) <= 2 * |blockTypes|
  {
    if |blockTypes| > 0 {
      TotalChannelsBounds(blockTypes[..|blockTypes| - 1]);
    }
  }

  /** The configuration's channel count is at least its block count once every block is typed. */
  lemma ChannelsCoverBlocks(blockTypes: seq<int>)
    requires forall i :: 0 <= i < |blockTypes| ==> IsBlockType(blockTypes[i])
    ensures NewChannelConfig(blockTypes).ChannelCount >= NewChannelConfig(blockTypes).BlockCount
  {
    TotalChannelsBounds(blockTypes);
  }
}
