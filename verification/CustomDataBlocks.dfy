/** Which custom-data blocks and nodes survive a reconciliation, and where anchors on them go. */
module CustomDataBlocks {
  import opened Wrappers
  import opened TextOrder
  import opened FidelitySlots
  import opened CustomData
  import opened CustomDataFates

  /** A block survives when it was empty or some item of it does. */
  predicate Survives(block: Block, keys: set<Text>) {
    block.items == [] || KeptItems(block.items, keys) != []
  }

  function Surviving(blocks: seq<Block>, keys: set<Text>): seq<Block> {
    if blocks == [] then []
    else Surviving(blocks[..|blocks| - 1], keys) + if Survives(blocks[|blocks| - 1], keys) then [blocks[|blocks| - 1]] else []
  }

  /** What is said of each block that was read. */
  ghost predicate Retains(r: Retention, blocks: seq<Block>, keys: set<Text>) {
    var s := Surviving(blocks, keys);
    && |r.blocks| == |s| && (forall i :: 0 <= i < |s| ==> r.blocks[i].items == KeptItems(s[i].items, keys))
    && |r.occurrences| == |blocks| && (forall i :: 0 <= i < |blocks| ==> r.occurrences[i] == Survives(blocks[i], keys))
    && |r.anchors| == |blocks|
  }

  lemma RetainsPush(r: Retention, blocks: seq<Block>, block: Block, keys: set<Text>)
    requires Retains(r, blocks, keys)
    ensures Retains(RetainBlock(r, block, keys), blocks + [block], keys)
  {
    hide KeptItems, FilterItems;
    FilterIsKept(block.items, keys);
    assert (blocks + [block])[..|blocks|] == blocks;
  }

  /** Retention keeps the surviving blocks, in order, with their remaining items. */
  lemma {:induction false} RetainedBlocks(blocks: seq<Block>, keys: set<Text>)
    ensures Retains(RetainBlocks(blocks, keys), blocks, keys)
  {
    if blocks != [] {
      var init, last := blocks[..|blocks| - 1], blocks[|blocks| - 1];
      RetainedBlocks(init, keys);
      RetainsPush(RetainBlocks(init, keys), init, last, keys);
      assert blocks == init + [last];
      hide Retains, RetainBlock;
    }
  }

  lemma {:induction false} AnchorsGrow(blocks: seq<Block>, keys: set<Text>, n: nat)
    requires n <= |blocks|
    ensures RetainBlocks(blocks[..n], keys).anchors <= RetainBlocks(blocks, keys).anchors
    decreases |blocks|
  {
    if n < |blocks| {
      assert blocks[..|blocks| - 1][..n] == blocks[..n];
      AnchorsGrow(blocks[..|blocks| - 1], keys, n);
    } else {
      assert blocks[..n] == blocks;
    }
  }

  lemma NewAnchor(r: Retention, blocks: seq<Block>, block: Block, keys: set<Text>)
    requires Retains(r, blocks, keys)
    ensures RetainBlock(r, block, keys).anchors ==
      r.anchors + [if Survives(block, keys) then Some(Anchor(CUSTOM_DATA, |Surviving(blocks, keys)| + 1))
                   else RetargetCustomData(block.after, r.anchors)]
  {
    hide KeptItems, FilterItems;
    FilterIsKept(block.items, keys);
  }

  /**
    What was anchored to a surviving block is anchored to it at its new place;
    what was anchored to a block that goes follows that block's own anchor.
   */
  lemma AnchorFollowsBlock(blocks: seq<Block>, keys: set<Text>, k: nat)
    requires k < |blocks|
    ensures var anchors := RetainBlocks(blocks, keys).anchors;
      && k < |anchors|
      && RetargetCustomData(Some(Anchor(CUSTOM_DATA, k + 1)), anchors) == anchors[k]
      && anchors[k] ==
           if Survives(blocks[k], keys) then Some(Anchor(CUSTOM_DATA, |Surviving(blocks[..k], keys)| + 1))
           else RetargetCustomData(blocks[k].after, anchors[..k])
  {
    var before, here := blocks[..k], blocks[..k + 1];
    assert here == before + [blocks[k]] && here[..k] == before;
    RetainedBlocks(before, keys);
    RetainedBlocks(here, keys);
    RetainedBlocks(blocks, keys);
    NewAnchor(RetainBlocks(before, keys), before, blocks[k], keys);
    AnchorsGrow(blocks, keys, k + 1);
    assert RetainBlocks(here, keys) == RetainBlock(RetainBlocks(before, keys), blocks[k], keys);
    hide RetainBlocks, RetainBlock, Survives, Surviving;
    assert RetainBlocks(blocks, keys).anchors[..k] == RetainBlocks(before, keys).anchors;
  }

  /** The surviving blocks are the blocks of the result, and only the last, or a first one, takes new items. */
  lemma ReconciledBlocks(f: Fidelity, merged: map<Text, Text>, updated: Option<(Text, Option<int>)>)
    ensures var s, out := Surviving(f.blocks, merged.Keys), Reconciled(f, merged, updated).blocks;
      && (s == [] ==> |out| <= 1)
      && (s != [] ==> |out| == |s|)
      && (forall i :: 0 <= i < |s| ==>
            |KeptItems(s[i].items, merged.Keys)| <= |out[i].items|
            && (i < |s| - 1 ==> |KeptItems(s[i].items, merged.Keys)| == |out[i].items|))
  {
    RetainedBlocks(f.blocks, merged.Keys);
    hide Surviving, KeptItems, RetainBlocks, LastAt, Revised, BlockKeys, SortTexts, RetargetAll, RetainNodes;
  }

  /** How many of the first `n` blocks stay; beyond the last block every node does. */
  function Staying(occurrences: seq<bool>, n: nat): nat {
    if n == 0 then 0
    else Staying(occurrences, n - 1) + if n - 1 < |occurrences| && !occurrences[n - 1] then 0 else 1
  }

  /** Every node but those of the blocks that go stays, in order. */
  lemma {:induction false} NodesFollowBlocks(nodes: seq<Text>, occurrences: seq<bool>, name: Text)
    requires name == CUSTOM_DATA
    ensures var kept := RetainNodes(nodes, occurrences);
      && Others(kept, name) == Others(nodes, name)
      && Count(kept, name) == Staying(occurrences, Count(nodes, name))
  {
    if nodes != [] {
      var init, last := nodes[..|nodes| - 1], nodes[|nodes| - 1];
      NodesFollowBlocks(init, occurrences, name);
      var kept := RetainNodes(init, occurrences);
      assert (kept + [last])[..|kept|] == kept;
      assert kept + [] == kept;
    }
  }
}
