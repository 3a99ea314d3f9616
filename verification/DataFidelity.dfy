/** What merging custom data makes of blocks, opaque content and nodes, told by the blocks that carry it. */
module DataFidelity {
  import opened Wrappers
  import opened TextOrder
  import opened FidelitySlots
  import opened FieldMerge
  import opened CustomData
  import opened CustomDataFates
  import opened CustomDataBlocks

  const BLOCK_NODE: Text := "CustomData"

  /** Local's blocks where only local has new ones that its edits do not explain, else remote's. */
  ghost function CarrierOf(base: Side, local: Side, remote: Side): seq<Block> {
    if local.blocks != base.blocks && remote.blocks == base.blocks && !EditedInPlace(base, local) then local.blocks
    else remote.blocks
  }

  // ---- Anchors ----

  /** Where an anchor goes that was read before block `n`. */
  ghost function Through(blocks: seq<Block>, keys: set<Text>, n: nat, a: Option<Anchor>): Option<Anchor>
    requires n <= |blocks|
    decreases n, 1
  {
    if a.None? || a.value.elementName != BLOCK_NODE || a.value.occurrence == 0 || a.value.occurrence > n then a
    else OfBlock(blocks, keys, a.value.occurrence - 1)
  }

  /** A surviving block is named at its new place; one that goes hands on its own anchor. */
  ghost function OfBlock(blocks: seq<Block>, keys: set<Text>, k: nat): Option<Anchor>
    requires k < |blocks|
    decreases k, 2
  {
    if Survives(blocks[k], keys) then Some(Anchor(BLOCK_NODE, |Surviving(blocks[..k], keys)| + 1))
    else Through(blocks, keys, k, blocks[k].after)
  }

  lemma DataNode()
    ensures CUSTOM_DATA == BLOCK_NODE
  {
  }

  lemma {:induction false} AnchorsAre(blocks: seq<Block>, keys: set<Text>, k: nat)
    requires k < |blocks|
    ensures var anchors := RetainBlocks(blocks, keys).anchors;
      k < |anchors| && anchors[k] == OfBlock(blocks, keys, k)
    decreases k, 1
  {
    AnchorFollowsBlock(blocks, keys, k);
    RetainedBlocks(blocks, keys);
    hide RetainBlocks, Surviving, Survives;
    var anchors := RetainBlocks(blocks, keys).anchors;
    if !Survives(blocks[k], keys) {
      ThroughIs(blocks, keys, k, anchors[..k], blocks[k].after);
    }
  }

  lemma {:induction false} ThroughIs(blocks: seq<Block>, keys: set<Text>, n: nat, anchors: seq<Option<Anchor>>, a: Option<Anchor>)
    requires n <= |blocks| && |RetainBlocks(blocks, keys).anchors| == |blocks|
    requires anchors == RetainBlocks(blocks, keys).anchors[..n]
    ensures RetargetCustomData(a, anchors) == Through(blocks, keys, n, a)
    decreases n, 0
  {
    hide RetainBlocks, Surviving, Survives;
    DataNode();
    if a.Some? && a.value.elementName == BLOCK_NODE && 0 < a.value.occurrence <= n {
      AnchorsAre(blocks, keys, a.value.occurrence - 1);
    }
  }

  lemma ThroughAll(blocks: seq<Block>, keys: set<Text>, a: Option<Anchor>)
    ensures RetargetCustomData(a, RetainBlocks(blocks, keys).anchors) == Through(blocks, keys, |blocks|, a)
  {
    RetainedBlocks(blocks, keys);
    hide RetainBlocks, Surviving, Survives;
    var anchors := RetainBlocks(blocks, keys).anchors;
    assert anchors[..|blocks|] == anchors;
    ThroughIs(blocks, keys, |blocks|, anchors, a);
  }

  // ---- Nodes ----

  /** The nodes of blocks that go are dropped; beyond the last block every node stays. */
  ghost function NodesLeft(nodes: seq<Text>, blocks: seq<Block>, keys: set<Text>): seq<Text> {
    if nodes == [] then []
    else
      var before, name := nodes[..|nodes| - 1], nodes[|nodes| - 1];
      var k := Count(before, BLOCK_NODE);
      NodesLeft(before, blocks, keys)
        + if name == BLOCK_NODE && k < |blocks| && !Survives(blocks[k], keys) then [] else [name]
  }

  lemma {:induction false} NodesAre(nodes: seq<Text>, blocks: seq<Block>, keys: set<Text>, occurrences: seq<bool>)
    requires |occurrences| == |blocks| && forall i :: 0 <= i < |blocks| ==> occurrences[i] == Survives(blocks[i], keys)
    ensures RetainNodes(nodes, occurrences) == NodesLeft(nodes, blocks, keys)
  {
    DataNode();
    hide Survives;
    if nodes != [] {
      NodesAre(nodes[..|nodes| - 1], blocks, keys, occurrences);
    }
  }

  // ---- Blocks ----

  /** The anchors of the surviving blocks, each seen before the block itself. */
  ghost function SurvivorAnchors(blocks: seq<Block>, keys: set<Text>, n: nat): seq<Option<Anchor>>
    requires n <= |blocks|
  {
    if n == 0 then []
    else
      SurvivorAnchors(blocks, keys, n - 1)
        + if Survives(blocks[n - 1], keys) then [Through(blocks, keys, n - 1, blocks[n - 1].after)] else []
  }

  ghost function AnchorsOf(blocks: seq<Block>): seq<Option<Anchor>> {
    seq(|blocks|, i requires 0 <= i < |blocks| => blocks[i].after)
  }

  lemma {:induction false} RetainedAnchors(blocks: seq<Block>, keys: set<Text>, n: nat)
    requires n <= |blocks|
    ensures AnchorsOf(RetainBlocks(blocks[..n], keys).blocks) == SurvivorAnchors(blocks, keys, n)
  {
    if n == 0 {
      assert blocks[..0] == [];
    } else {
      RetainedAnchors(blocks, keys, n - 1);
      assert blocks[..n][..n - 1] == blocks[..n - 1] && blocks[..n][n - 1] == blocks[n - 1];
      OneBlockMore(blocks, keys, n);
    }
  }

  lemma AnchorOfNext(r: Retention, block: Block, keys: set<Text>)
    ensures AnchorsOf(RetainBlock(r, block, keys).blocks) ==
      AnchorsOf(r.blocks) + if Survives(block, keys) then [RetargetCustomData(block.after, r.anchors)] else []
  {
    hide KeptItems, FilterItems, RetargetCustomData;
    FilterIsKept(block.items, keys);
  }

  lemma OneBlockMore(blocks: seq<Block>, keys: set<Text>, n: nat)
    requires 0 < n <= |blocks|
    ensures AnchorsOf(RetainBlocks(blocks[..n], keys).blocks) ==
      AnchorsOf(RetainBlocks(blocks[..n - 1], keys).blocks)
      + if Survives(blocks[n - 1], keys) then [Through(blocks, keys, n - 1, blocks[n - 1].after)] else []
  {
    var before := blocks[..n - 1];
    assert blocks[..n][..n - 1] == before && blocks[..n][n - 1] == blocks[n - 1];
    var r := RetainBlocks(before, keys);
    assert RetainBlocks(blocks[..n], keys) == RetainBlock(r, blocks[n - 1], keys);
    hide RetainBlocks, RetainBlock, Survives, Surviving, Through, RetargetCustomData, AnchorsOf;
    AnchorOfNext(r, blocks[n - 1], keys);
    RetainedBlocks(blocks, keys);
    RetainedBlocks(before, keys);
    AnchorsGrow(blocks, keys, n - 1);
    assert r.anchors == RetainBlocks(blocks, keys).anchors[..n - 1];
    ThroughIs(blocks, keys, n - 1, r.anchors, blocks[n - 1].after);
  }

  /** Surviving blocks keep their anchors and, but for the last, the number of their items; without any there is at most one new block. */
  ghost predicate BlocksLeft(carrier: seq<Block>, keys: set<Text>, blocks: seq<Block>) {
    var s := Surviving(carrier, keys);
    if s == [] then |blocks| <= 1 && (blocks != [] ==> blocks[0].after == None)
    else
      && AnchorsOf(blocks) == SurvivorAnchors(carrier, keys, |carrier|) && |blocks| == |s|
      && forall i :: 0 <= i < |s| - 1 ==> |blocks[i].items| == |KeptItems(s[i].items, keys)|
  }

  lemma RevisedAnchors(blocks: seq<Block>, values: map<Text, Text>, stamps: map<Text, Option<int>>)
    ensures AnchorsOf(ReviseLast(blocks, values, stamps)) == AnchorsOf(blocks)
    ensures |ReviseLast(blocks, values, stamps)| == |blocks|
    ensures forall i :: 0 <= i < |blocks| ==> |ReviseLast(blocks, values, stamps)[i].items| == |blocks[i].items|
  {
    hide LastAt;
  }

  lemma AppendedAnchors(blocks: seq<Block>, items: seq<Item>)
    ensures blocks != [] ==> AnchorsOf(AppendItems(blocks, items)) == AnchorsOf(blocks)
    ensures blocks == [] && items != [] ==> AppendItems(blocks, items) == [Block(items, None)]
  {
  }

  lemma ReconciledLeft(f: Fidelity, values: map<Text, Text>)
    ensures BlocksLeft(f.blocks, values.Keys, Reconciled(f, values, None).blocks)
  {
    var retained := RetainBlocks(f.blocks, values.Keys);
    var revised := ReviseLast(retained.blocks, values, StampsOf(None));
    var missing := SortTexts(values.Keys - BlockKeys(revised));
    assert forall k :: k in missing ==> k in Elements(missing);
    var added := NewItems(missing, values, StampsOf(None));
    assert Reconciled(f, values, None).blocks == AppendItems(revised, added);
    hide RetainBlocks, ReviseLast, Reconciled, Surviving, KeptItems, NewItems, SortTexts, BlockKeys, AppendItems, SurvivorAnchors,
         Survives;
    RetainedAnchors(f.blocks, values.Keys, |f.blocks|);
    assert f.blocks[..|f.blocks|] == f.blocks;
    RetainedBlocks(f.blocks, values.Keys);
    RevisedAnchors(retained.blocks, values, StampsOf(None));
    ReconciledBlocks(f, values, None);
    AppendedAnchors(revised, added);
    NothingAppended(revised);
  }

  lemma NothingAppended(blocks: seq<Block>)
    ensures AppendItems(blocks, []) == blocks
  {
  }

  lemma StampsKeepBlocks(carrier: seq<Block>, keys: set<Text>, blocks: seq<Block>, stamps: map<Text, Option<int>>)
    requires BlocksLeft(carrier, keys, blocks)
    ensures BlocksLeft(carrier, keys, ReviseLast(blocks, map[], stamps))
  {
    hide ReviseLast, Surviving, SurvivorAnchors, KeptItems;
    RevisedAnchors(blocks, map[], stamps);
    var revised := ReviseLast(blocks, map[], stamps);
    if blocks != [] {
      assert AnchorsOf(revised)[0] == AnchorsOf(blocks)[0];
    }
  }

  lemma ReconciledBlocksLeft(f: Fidelity, values: map<Text, Text>, units: map<Text, Unit>)
    ensures BlocksLeft(f.blocks, values.Keys, WithStamps(Reconciled(f, values, None).blocks, units))
  {
    ReconciledLeft(f, values);
    hide Reconciled, BlocksLeft, UnitStamps;
    StampsKeepBlocks(f.blocks, values.Keys, Reconciled(f, values, None).blocks, UnitStamps(units));
  }

  // ---- The whole merge ----

  /** Same fragments in the same order; what they followed they still follow, by the blocks that stay. */
  ghost predicate FragmentsFollow(before: seq<OpaqueXmlFragment>, after: seq<OpaqueXmlFragment>, carrier: seq<Block>, keys: set<Text>) {
    && |after| == |before|
    && forall i :: 0 <= i < |before| ==>
        after[i].xml == before[i].xml && after[i].after == Through(carrier, keys, |carrier|, before[i].after)
  }

  /** Everything merged custom data does: to items and times, to blocks, to opaque content and to nodes. */
  ghost predicate DataMerged(base: Side, local: Side, remote: Side, values: map<Text, Text>, blocks: seq<Block>,
                             xml: seq<OpaqueXmlFragment>, xmlAfter: seq<OpaqueXmlFragment>, nodes: seq<Text>, nodesAfter: seq<Text>) {
    var carrier := CarrierOf(base, local, remote);
    && Carries(AllItems(carrier), values, AllItems(blocks))
    && Matches(Side(values, blocks)) && (forall key :: key in values ==> StampKept(local, remote, Side(values, blocks), key))
    && BlocksLeft(carrier, values.Keys, blocks)
    && FragmentsFollow(xml, xmlAfter, carrier, values.Keys)
    && nodesAfter == NodesLeft(nodes, carrier, values.Keys)
  }

  lemma CarrierIs(base: Side, local: Side, remote: Side)
    ensures CarrierOf(base, local, remote) == if FidelityOnly(base, local, remote) then local.blocks else remote.blocks
  {
    ReplayIsOnePass(base, local);
    hide Replayable, EditedInPlace;
  }

  lemma ReconciledFollows(f: Fidelity, values: map<Text, Text>)
    ensures FragmentsFollow(f.opaqueXml, Reconciled(f, values, None).opaqueXml, f.blocks, values.Keys)
    ensures Reconciled(f, values, None).nodeOrder == NodesLeft(f.nodeOrder, f.blocks, values.Keys)
  {
    var retained := RetainBlocks(f.blocks, values.Keys);
    RetainedBlocks(f.blocks, values.Keys);
    NodesAre(f.nodeOrder, f.blocks, values.Keys, retained.occurrences);
    assert Reconciled(f, values, None).opaqueXml == RetargetAll(f.opaqueXml, retained.anchors);
    assert Reconciled(f, values, None).nodeOrder == RetainNodes(f.nodeOrder, retained.occurrences);
    hide Reconciled, RetainBlocks, Surviving, Survives, RetainNodes, NodesLeft, Through;
    forall i | 0 <= i < |f.opaqueXml|
      ensures RetargetCustomData(f.opaqueXml[i].after, retained.anchors)
           == Through(f.blocks, values.Keys, |f.blocks|, f.opaqueXml[i].after)
    {
      ThroughAll(f.blocks, values.Keys, f.opaqueXml[i].after);
    }
  }

  lemma DataMergedExactly(base: Side, local: Side, remote: Side, preferLocal: bool, xml: seq<OpaqueXmlFragment>, nodes: seq<Text>)
    ensures var m := MergedSide(base, local, remote, preferLocal, xml, nodes);
      DataMerged(base, local, remote, m.values, m.fidelity.blocks, xml, m.fidelity.opaqueXml, nodes, m.fidelity.nodeOrder)
  {
    MergedStamps(base, local, remote, preferLocal, xml, nodes);
    MergedCarries(base, local, remote, preferLocal, xml, nodes);
    CarrierIs(base, local, remote);
    var units := MergedUnits(Units(base.values, base.blocks), Units(local.values, local.blocks),
                             Units(remote.values, remote.blocks), preferLocal);
    var f := Fidelity(CarrierOf(base, local, remote), xml, nodes);
    ReconciledBlocksLeft(f, UnitValues(units), units);
    ReconciledFollows(f, UnitValues(units));
    hide Reconciled, MergedUnits, Units, WithStamps, Carries, Matches, StampKept, BlocksLeft, FragmentsFollow, NodesLeft, EditedInPlace,
         FidelityOnly, UnitValues, AllItems;
  }
}
