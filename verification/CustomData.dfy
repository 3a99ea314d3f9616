/**
  CustomData: a semantic map that must agree with ordered fidelity blocks, in
  which a key may occur several times and its last occurrence is the one read.
 */
module CustomData {
  import opened Wrappers
  import opened TextOrder
  import opened FidelitySlots
  import opened FieldMerge

  datatype Item = Item(key: Text, value: Text, lastModified: Option<int>)
  datatype Block = Block(items: seq<Item>, after: Option<Anchor>)
  datatype Unit = Unit(value: Text, lastModified: Option<int>)

  const CUSTOM_DATA: Text := "CustomData"

  // ---- Reading blocks: the last occurrence of a key wins ----

  function ViewItems(items: seq<Item>): map<Text, Item> {
    if items == [] then map[]
    else ViewItems(items[..|items| - 1])[items[|items| - 1].key := items[|items| - 1]]
  }

  function View(blocks: seq<Block>): map<Text, Item> {
    if blocks == [] then map[]
    else View(blocks[..|blocks| - 1]) + ViewItems(blocks[|blocks| - 1].items)
  }

  function ItemKeys(items: seq<Item>): set<Text> {
    if items == [] then {}
    else ItemKeys(items[..|items| - 1]) + {items[|items| - 1].key}
  }

  function BlockKeys(blocks: seq<Block>): set<Text> {
    if blocks == [] then {}
    else BlockKeys(blocks[..|blocks| - 1]) + ItemKeys(blocks[|blocks| - 1].items)
  }

  function Units(values: map<Text, Text>, blocks: seq<Block>): map<Text, Unit> {
    var view := View(blocks);
    map key | key in values :: Unit(values[key], if key in view then view[key].lastModified else None)
  }

  /** Position (i, j) holds the last occurrence of its key. */
  predicate LastAt(blocks: seq<Block>, i: nat, j: nat)
    requires i < |blocks| && j < |blocks[i].items|
  {
    && blocks[i].items[j].key !in ItemKeys(blocks[i].items[j + 1..])
    && blocks[i].items[j].key !in BlockKeys(blocks[i + 1..])
  }

  lemma {:induction false} ViewItemsKeys(items: seq<Item>)
    ensures ViewItems(items).Keys == ItemKeys(items)
    ensures forall k :: k in ViewItems(items) ==> ViewItems(items)[k].key == k
  {
    if items != [] {
      ViewItemsKeys(items[..|items| - 1]);
    }
  }

  lemma {:induction false} ViewKeys(blocks: seq<Block>)
    ensures View(blocks).Keys == BlockKeys(blocks)
    ensures forall k :: k in View(blocks) ==> View(blocks)[k].key == k
  {
    if blocks != [] {
      ViewKeys(blocks[..|blocks| - 1]);
      ViewItemsKeys(blocks[|blocks| - 1].items);
    }
  }

  lemma {:induction false} ViewItemsAt(items: seq<Item>, j: nat)
    requires j < |items| && items[j].key !in ItemKeys(items[j + 1..])
    ensures items[j].key in ViewItems(items) && ViewItems(items)[items[j].key] == items[j]
  {
    var n := |items| - 1;
    if j < n {
      assert items[j + 1..][..n - j - 1] == items[..n][j + 1..];
      ViewItemsAt(items[..n], j);
    }
  }

  lemma {:induction false} ViewAt(blocks: seq<Block>, i: nat, j: nat)
    requires i < |blocks| && j < |blocks[i].items| && LastAt(blocks, i, j)
    ensures var item := blocks[i].items[j];
      item.key in View(blocks) && View(blocks)[item.key] == item
  {
    var n := |blocks| - 1;
    ViewItemsKeys(blocks[n].items);
    if i < n {
      assert blocks[i + 1..][..n - i - 1] == blocks[..n][i + 1..];
      ViewAt(blocks[..n], i, j);
    } else {
      ViewItemsAt(blocks[n].items, j);
    }
  }

  lemma {:induction false} LastItem(items: seq<Item>, key: Text) returns (j: nat)
    requires key in ItemKeys(items)
    ensures j < |items| && items[j].key == key && key !in ItemKeys(items[j + 1..])
  {
    var n := |items| - 1;
    if items[n].key == key {
      j := n;
    } else {
      j := LastItem(items[..n], key);
      assert items[j + 1..][..n - j - 1] == items[..n][j + 1..];
    }
  }

  /** Every key that occurs has a last occurrence. */
  lemma {:induction false} LastPosition(blocks: seq<Block>, key: Text) returns (i: nat, j: nat)
    requires key in BlockKeys(blocks)
    ensures i < |blocks| && j < |blocks[i].items| && blocks[i].items[j].key == key && LastAt(blocks, i, j)
  {
    var n := |blocks| - 1;
    if key in ItemKeys(blocks[n].items) {
      i := n;
      j := LastItem(blocks[n].items, key);
    } else {
      i, j := LastPosition(blocks[..n], key);
      assert blocks[i + 1..][..n - i - 1] == blocks[..n][i + 1..];
    }
  }

  // ---- Reconciliation, step by step ----

  function FilterItems(items: seq<Item>, keys: set<Text>): seq<Item> {
    if items == [] then []
    else
      var last := items[|items| - 1];
      FilterItems(items[..|items| - 1], keys) + if last.key in keys then [last] else []
  }

  function RetargetCustomData(anchor: Option<Anchor>, anchors: seq<Option<Anchor>>): Option<Anchor> {
    match anchor
    case None => None
    case Some(a) =>
      if a.elementName != CUSTOM_DATA || a.occurrence == 0 then anchor
      else if a.occurrence - 1 < |anchors| then anchors[a.occurrence - 1]
      else anchor
  }

  /** Blocks that survive, whether each original survived, and where anchors on it go. */
  datatype Retention = Retention(blocks: seq<Block>, occurrences: seq<bool>, anchors: seq<Option<Anchor>>)

  function RetainBlock(r: Retention, block: Block, keys: set<Text>): Retention {
    var items := FilterItems(block.items, keys);
    var after := RetargetCustomData(block.after, r.anchors);
    if block.items == [] || items != [] then
      Retention(r.blocks + [Block(items, after)], r.occurrences + [true],
                r.anchors + [Some(Anchor(CUSTOM_DATA, |r.blocks| + 1))])
    else
      Retention(r.blocks, r.occurrences + [false], r.anchors + [after])
  }

  function RetainBlocks(blocks: seq<Block>, keys: set<Text>): Retention {
    if blocks == [] then Retention([], [], [])
    else RetainBlock(RetainBlocks(blocks[..|blocks| - 1], keys), blocks[|blocks| - 1], keys)
  }

  function RetainNodes(nodes: seq<Text>, occurrences: seq<bool>): seq<Text> {
    if nodes == [] then []
    else
      var name := nodes[|nodes| - 1];
      var before := nodes[..|nodes| - 1];
      var index := Count(before, CUSTOM_DATA);
      RetainNodes(before, occurrences)
        + if name != CUSTOM_DATA || (index < |occurrences| ==> occurrences[index]) then [name] else []
  }

  function Revised(item: Item, values: map<Text, Text>, stamps: map<Text, Option<int>>): Item {
    Item(item.key,
         if item.key in values then values[item.key] else item.value,
         if item.key in stamps then stamps[item.key] else item.lastModified)
  }

  /** Revises the last occurrence of every key and nothing else. */
  function ReviseLast(blocks: seq<Block>, values: map<Text, Text>, stamps: map<Text, Option<int>>): seq<Block> {
    seq(|blocks|, i requires 0 <= i < |blocks| =>
      blocks[i].(items := seq(|blocks[i].items|, j requires 0 <= j < |blocks[i].items| =>
        if LastAt(blocks, i, j) then Revised(blocks[i].items[j], values, stamps) else blocks[i].items[j])))
  }

  function AppendItems(blocks: seq<Block>, items: seq<Item>): seq<Block> {
    if items == [] then blocks
    else if blocks == [] then [Block(items, None)]
    else
      var last := blocks[|blocks| - 1];
      blocks[..|blocks| - 1] + [last.(items := last.items + items)]
  }

  function StampsOf(updated: Option<(Text, Option<int>)>): map<Text, Option<int>> {
    if updated.Some? then map[updated.value.0 := updated.value.1] else map[]
  }

  function NewItems(keys: seq<Text>, values: map<Text, Text>, stamps: map<Text, Option<int>>): seq<Item>
    requires forall k :: k in keys ==> k in values
  {
    seq(|keys|, i requires 0 <= i < |keys| =>
      Item(keys[i], values[keys[i]], if keys[i] in stamps then stamps[keys[i]] else None))
  }

  datatype Fidelity = Fidelity(blocks: seq<Block>, opaqueXml: seq<OpaqueXmlFragment>, nodeOrder: seq<Text>)

  function RetargetAll(fragments: seq<OpaqueXmlFragment>, anchors: seq<Option<Anchor>>): seq<OpaqueXmlFragment> {
    seq(|fragments|, i requires 0 <= i < |fragments| =>
      fragments[i].(after := RetargetCustomData(fragments[i].after, anchors)))
  }

  function Reconciled(f: Fidelity, merged: map<Text, Text>, updated: Option<(Text, Option<int>)>): Fidelity {
    var retained := RetainBlocks(f.blocks, merged.Keys);
    var revised := ReviseLast(retained.blocks, merged, StampsOf(updated));
    var missing := SortTexts(merged.Keys - BlockKeys(revised));
    assert forall k :: k in missing ==> k in Elements(missing);
    Fidelity(AppendItems(revised, NewItems(missing, merged, StampsOf(updated))),
             RetargetAll(f.opaqueXml, retained.anchors),
             RetainNodes(f.nodeOrder, retained.occurrences))
  }

  // ---- What each step does to the view ----

  /** `kept` is `all` restricted to `keys`. */
  ghost predicate Restricts(kept: map<Text, Item>, all: map<Text, Item>, keys: set<Text>) {
    kept.Keys == all.Keys * keys && forall k :: k in kept ==> kept[k] == all[k]
  }

  lemma {:induction false} ViewFilteredItems(items: seq<Item>, keys: set<Text>)
    ensures Restricts(ViewItems(FilterItems(items, keys)), ViewItems(items), keys)
  {
    if items != [] {
      var prefix, last := items[..|items| - 1], items[|items| - 1];
      ViewFilteredItems(prefix, keys);
      var kept := FilterItems(prefix, keys);
      assert (kept + [last])[..|kept|] == kept;
      assert kept + [] == kept;
    }
  }

  lemma ViewPush(blocks: seq<Block>, block: Block)
    ensures View(blocks + [block]) == View(blocks) + ViewItems(block.items)
    ensures BlockKeys(blocks + [block]) == BlockKeys(blocks) + ItemKeys(block.items)
  {
    assert (blocks + [block])[..|blocks|] == blocks;
  }

  lemma RestrictsUnion(
    a: map<Text, Item>, allA: map<Text, Item>, b: map<Text, Item>, allB: map<Text, Item>, keys: set<Text>)
    requires Restricts(a, allA, keys) && Restricts(b, allB, keys)
    ensures Restricts(a + b, allA + allB, keys)
  {
  }

  lemma {:induction false} ViewRetained(blocks: seq<Block>, keys: set<Text>)
    ensures Restricts(View(RetainBlocks(blocks, keys).blocks), View(blocks), keys)
  {
    if blocks != [] {
      var prefix, last := blocks[..|blocks| - 1], blocks[|blocks| - 1];
      ViewRetained(prefix, keys);
      ViewFilteredItems(last.items, keys);
      var r := RetainBlocks(prefix, keys);
      var items := FilterItems(last.items, keys);
      RestrictsUnion(View(r.blocks), View(prefix), ViewItems(items), ViewItems(last.items), keys);
      if last.items == [] || items != [] {
        ViewPush(r.blocks, Block(items, RetargetCustomData(last.after, r.anchors)));
      } else {
        assert View(r.blocks) + map[] == View(r.blocks);
      }
    }
  }

  lemma {:induction false} SameItemKeys(a: seq<Item>, b: seq<Item>)
    requires |a| == |b| && forall j :: 0 <= j < |a| ==> a[j].key == b[j].key
    ensures ItemKeys(a) == ItemKeys(b)
  {
    if a != [] {
      SameItemKeys(a[..|a| - 1], b[..|b| - 1]);
    }
  }

  ghost predicate SameKeys(a: seq<Item>, b: seq<Item>) {
    |a| == |b| && forall j :: 0 <= j < |a| ==> a[j].key == b[j].key
  }

  lemma {:induction false} SameBlockKeys(a: seq<Block>, b: seq<Block>)
    requires |a| == |b| && forall i :: 0 <= i < |a| ==> SameKeys(a[i].items, b[i].items)
    ensures BlockKeys(a) == BlockKeys(b)
  {
    if a != [] {
      var n := |a| - 1;
      SameBlockKeys(a[..n], b[..n]);
      SameItemKeys(a[n].items, b[n].items);
    }
  }

  lemma ReviseKeepsLast(blocks: seq<Block>, values: map<Text, Text>, stamps: map<Text, Option<int>>, i: nat, j: nat)
    requires i < |blocks| && j < |blocks[i].items|
    ensures LastAt(ReviseLast(blocks, values, stamps), i, j) == LastAt(blocks, i, j)
  {
    var revised := ReviseLast(blocks, values, stamps);
    SameItemKeys(revised[i].items[j + 1..], blocks[i].items[j + 1..]);
    SameBlockKeys(revised[i + 1..], blocks[i + 1..]);
  }

  /** Revision keeps the keys and revises exactly the items that are read. */
  lemma ViewRevised(blocks: seq<Block>, values: map<Text, Text>, stamps: map<Text, Option<int>>)
    ensures View(ReviseLast(blocks, values, stamps)).Keys == View(blocks).Keys
    ensures forall k :: k in View(blocks) ==>
      View(ReviseLast(blocks, values, stamps))[k] == Revised(View(blocks)[k], values, stamps)
  {
    var revised := ReviseLast(blocks, values, stamps);
    SameBlockKeys(revised, blocks);
    ViewKeys(blocks);
    ViewKeys(revised);
    forall k | k in View(blocks) ensures View(revised)[k] == Revised(View(blocks)[k], values, stamps) {
      var i, j := LastPosition(blocks, k);
      ReviseKeepsLast(blocks, values, stamps, i, j);
      ViewAt(blocks, i, j);
      ViewAt(revised, i, j);
    }
  }

  lemma {:induction false} ViewItemsConcat(a: seq<Item>, b: seq<Item>)
    ensures ViewItems(a + b) == ViewItems(a) + ViewItems(b)
  {
    if b == [] {
      assert a + b == a;
    } else {
      var n := |b| - 1;
      ViewItemsConcat(a, b[..n]);
      assert (a + b)[..|a + b| - 1] == a + b[..n];
    }
  }

  lemma ViewAppended(blocks: seq<Block>, items: seq<Item>)
    ensures View(AppendItems(blocks, items)) == View(blocks) + ViewItems(items)
  {
    if items == [] {
      assert View(blocks) + map[] == View(blocks);
    } else if blocks == [] {
      ViewPush([], Block(items, None));
      assert [] + [Block(items, None)] == [Block(items, None)];
      assert map[] + ViewItems(items) == ViewItems(items);
    } else {
      var n := |blocks| - 1;
      var last := blocks[n];
      ViewPush(blocks[..n], last.(items := last.items + items));
      ViewItemsConcat(last.items, items);
      assert View(blocks) == View(blocks[..n]) + ViewItems(last.items);
      MapUnionAssociative(View(blocks[..n]), ViewItems(last.items), ViewItems(items));
    }
  }

  lemma MapUnionAssociative(a: map<Text, Item>, b: map<Text, Item>, c: map<Text, Item>)
    ensures a + (b + c) == (a + b) + c
  {
  }

  lemma {:induction false} ViewNewItems(keys: seq<Text>, values: map<Text, Text>, stamps: map<Text, Option<int>>)
    requires forall k :: k in keys ==> k in values
    ensures var view := ViewItems(NewItems(keys, values, stamps));
      && (forall k :: k in keys <==> k in view)
      && (forall k :: k in view ==> view[k] == Item(k, values[k], if k in stamps then stamps[k] else None))
  {
    if keys != [] {
      var n := |keys| - 1;
      assert keys == keys[..n] + [keys[n]];
      ViewNewItems(keys[..n], values, stamps);
      assert NewItems(keys, values, stamps)[..n] == NewItems(keys[..n], values, stamps);
    }
  }

  /** The fidelity blocks say exactly what the map says. */
  ghost predicate Agrees(blocks: seq<Block>, values: map<Text, Text>) {
    && View(blocks).Keys == values.Keys
    && forall k :: k in values ==> View(blocks)[k].value == values[k]
  }

  /** The timestamp a key has after reconciliation. */
  function StampAfter(blocks: seq<Block>, stamps: map<Text, Option<int>>, key: Text): Option<int> {
    if key in stamps then stamps[key]
    else if key in View(blocks) then View(blocks)[key].lastModified
    else None
  }

  /** The blocks after revision and appending, before anchors matter. */
  lemma RevisedAndAppended(blocks: seq<Block>, merged: map<Text, Text>, stamps: map<Text, Option<int>>, missing: seq<Text>)
    requires View(blocks).Keys <= merged.Keys
    requires forall k :: k in missing <==> k in merged && k !in View(blocks)
    ensures var result := AppendItems(ReviseLast(blocks, merged, stamps), NewItems(missing, merged, stamps));
      && View(result).Keys == merged.Keys
      && (forall k :: k in merged ==> View(result)[k].value == merged[k])
      && (forall k :: k in merged ==> View(result)[k].lastModified == StampAfter(blocks, stamps, k))
  {
    hide View, ViewItems, ReviseLast, NewItems, AppendItems;
    ViewRevised(blocks, merged, stamps);
    ViewNewItems(missing, merged, stamps);
    ViewAppended(ReviseLast(blocks, merged, stamps), NewItems(missing, merged, stamps));
    ViewKeys(blocks);
    var result := AppendItems(ReviseLast(blocks, merged, stamps), NewItems(missing, merged, stamps));
    assert forall k :: k in View(result) <==> k in View(blocks) || k in missing;
  }

  /** Reconciliation makes the blocks agree with the map and keeps every other timestamp. */
  lemma ReconciledAgrees(f: Fidelity, merged: map<Text, Text>, updated: Option<(Text, Option<int>)>)
    ensures var blocks := Reconciled(f, merged, updated).blocks;
      && Agrees(blocks, merged)
      && forall k :: k in merged ==> View(blocks)[k].lastModified == StampAfter(f.blocks, StampsOf(updated), k)
  {
    hide View, ReviseLast, NewItems, AppendItems, RetainBlocks, BlockKeys, RetargetAll, RetainNodes;
    var retained := RetainBlocks(f.blocks, merged.Keys);
    var revised := ReviseLast(retained.blocks, merged, StampsOf(updated));
    var missing := SortTexts(merged.Keys - BlockKeys(revised));
    ViewRetained(f.blocks, merged.Keys);
    ViewRevised(retained.blocks, merged, StampsOf(updated));
    ViewKeys(revised);
    assert forall k :: k in missing <==> k in Elements(missing);
    RevisedAndAppended(retained.blocks, merged, StampsOf(updated), missing);
  }

  // ---- A second reconciliation changes nothing ----

  lemma {:induction false} FilterKeepsAll(items: seq<Item>, keys: set<Text>)
    requires ItemKeys(items) <= keys
    ensures FilterItems(items, keys) == items
  {
    if items != [] {
      FilterKeepsAll(items[..|items| - 1], keys);
    }
  }

  function OwnAnchors(n: nat): seq<Option<Anchor>> {
    seq(n, i requires 0 <= i < n => Some(Anchor(CUSTOM_DATA, i + 1)))
  }

  lemma OwnAnchorsStay(anchor: Option<Anchor>, n: nat)
    ensures RetargetCustomData(anchor, OwnAnchors(n)) == anchor
  {
  }

  function AllKept(n: nat): seq<bool> {
    seq(n, i => true)
  }

  /** Retaining everything through `n` blocks. */
  function KeptWhole(blocks: seq<Block>): Retention {
    Retention(blocks, AllKept(|blocks|), OwnAnchors(|blocks|))
  }

  lemma KeepOneMore(blocks: seq<Block>, block: Block, keys: set<Text>)
    requires FilterItems(block.items, keys) == block.items
    ensures RetainBlock(KeptWhole(blocks), block, keys) == KeptWhole(blocks + [block])
  {
    var n := |blocks|;
    OwnAnchorsStay(block.after, n);
    assert AllKept(n + 1) == AllKept(n) + [true];
    assert OwnAnchors(n + 1) == OwnAnchors(n) + [Some(Anchor(CUSTOM_DATA, n + 1))];
  }

  lemma {:induction false} RetainKeepsAll(blocks: seq<Block>, keys: set<Text>)
    requires BlockKeys(blocks) <= keys
    ensures RetainBlocks(blocks, keys) == KeptWhole(blocks)
  {
    if blocks != [] {
      var n := |blocks| - 1;
      RetainKeepsAll(blocks[..n], keys);
      FilterKeepsAll(blocks[n].items, keys);
      hide RetainBlock, KeptWhole;
      KeepOneMore(blocks[..n], blocks[n], keys);
      assert blocks == blocks[..n] + [blocks[n]];
    }
  }

  lemma {:induction false} NodesKeepAll(nodes: seq<Text>, n: nat)
    ensures RetainNodes(nodes, AllKept(n)) == nodes
  {
    if nodes != [] {
      NodesKeepAll(nodes[..|nodes| - 1], n);
    }
  }

  lemma ReviseKeepsAll(blocks: seq<Block>, values: map<Text, Text>, stamps: map<Text, Option<int>>)
    requires forall k :: k in View(blocks) ==> Revised(View(blocks)[k], values, stamps) == View(blocks)[k]
    ensures ReviseLast(blocks, values, stamps) == blocks
  {
    forall i, j | 0 <= i < |blocks| && 0 <= j < |blocks[i].items| && LastAt(blocks, i, j)
      ensures Revised(blocks[i].items[j], values, stamps) == blocks[i].items[j]
    {
      ViewAt(blocks, i, j);
    }
    var revised := ReviseLast(blocks, values, stamps);
    assert forall i :: 0 <= i < |blocks| ==> revised[i].items == blocks[i].items;
    assert forall i :: 0 <= i < |blocks| ==> revised[i] == blocks[i];
  }

  lemma RetargetKeepsAll(fragments: seq<OpaqueXmlFragment>, n: nat)
    ensures RetargetAll(fragments, OwnAnchors(n)) == fragments
  {
    forall i | 0 <= i < |fragments|
      ensures RetargetCustomData(fragments[i].after, OwnAnchors(n)) == fragments[i].after
    {
      OwnAnchorsStay(fragments[i].after, n);
    }
  }

  /** Blocks that already say what the map and the update say are left alone, anchors and node order included. */
  lemma SettledStays(f: Fidelity, merged: map<Text, Text>, updated: Option<(Text, Option<int>)>)
    requires Agrees(f.blocks, merged)
    requires updated.Some? && updated.value.0 in merged ==>
      View(f.blocks)[updated.value.0].lastModified == updated.value.1
    ensures Reconciled(f, merged, updated) == f
  {
    ViewKeys(f.blocks);
    RetainKeepsAll(f.blocks, merged.Keys);
    NodesKeepAll(f.nodeOrder, |f.blocks|);
    RetargetKeepsAll(f.opaqueXml, |f.blocks|);
    ReviseKeepsAll(f.blocks, merged, StampsOf(updated));
    assert merged.Keys - BlockKeys(f.blocks) == {};
  }

  /** Reconciling again with the same map and update changes nothing. */
  lemma ReconcileIdempotent(f: Fidelity, merged: map<Text, Text>, updated: Option<(Text, Option<int>)>)
    ensures var once := Reconciled(f, merged, updated);
      Reconciled(once, merged, updated) == once
  {
    ReconciledAgrees(f, merged, updated);
    SettledStays(Reconciled(f, merged, updated), merged, updated);
  }

  // ---- Three-way merge of a CustomData map and its blocks ----

  function LaterStamp(a: Option<int>, b: Option<int>): Option<int> {
    if a.None? then b
    else if b.None? then a
    else if a.value >= b.value then a else b
  }

  function ValueOf(unit: Option<Unit>): Option<Text> {
    if unit.Some? then Some(unit.value.value) else None
  }

  /** The timestamp a side vouches for, when it has the selected value. */
  function StampFor(unit: Option<Unit>, value: Text): Option<Option<int>> {
    if unit.Some? && unit.value.value == value then Some(unit.value.lastModified) else None
  }

  function MergedUnit(base: Option<Unit>, local: Option<Unit>, remote: Option<Unit>, preferLocal: bool): Option<Unit> {
    match Selected(ValueOf(base), ValueOf(local), ValueOf(remote), preferLocal)
    case None => None
    case Some(value) =>
      var stamp := match (StampFor(local, value), StampFor(remote, value))
        case (Some(l), Some(r)) => LaterStamp(l, r)
        case (Some(l), None) => l
        case (None, Some(r)) => r
        case (None, None) => StampFor(base, value).GetOr(None);
      Some(Unit(value, stamp))
  }

  function MergedUnits(base: map<Text, Unit>, local: map<Text, Unit>, remote: map<Text, Unit>, preferLocal: bool)
    : map<Text, Unit>
  {
    map key | key in UnionKeys(base, local, remote)
           && MergedUnit(Get(base, key), Get(local, key), Get(remote, key), preferLocal).Some?
      :: MergedUnit(Get(base, key), Get(local, key), Get(remote, key), preferLocal).value
  }

  /** One side's CustomData: the semantic map and the blocks that carry it. */
  datatype Side = Side(values: map<Text, Text>, blocks: seq<Block>)

  predicate UnitsConflict(base: Side, local: Side, remote: Side) {
    var b, l, r := Units(base.values, base.blocks), Units(local.values, local.blocks), Units(remote.values, remote.blocks);
    exists key | key in UnionKeys(b, l, r) ::
      Conflicts(ValueOf(Get(b, key)), ValueOf(Get(l, key)), ValueOf(Get(r, key)))
  }

  function UnitStamps(units: map<Text, Unit>): map<Text, Option<int>> {
    map key | key in units :: units[key].lastModified
  }

  function UnitValues(units: map<Text, Unit>): map<Text, Text> {
    map key | key in units :: units[key].value
  }

  function WithStamps(blocks: seq<Block>, units: map<Text, Unit>): seq<Block> {
    ReviseLast(blocks, map[], UnitStamps(units))
  }

  /** Replays each locally added item, in block order; an item added twice cannot be replayed. */
  function ReplayAdded(items: seq<Item>, base: map<Text, Text>, local: map<Text, Text>,
                       expected: Fidelity, applied: map<Text, Text>, added: set<Text>): Option<Fidelity>
  {
    if items == [] then Some(expected)
    else
      var item := items[0];
      if item.key in base || item.key !in local then
        ReplayAdded(items[1..], base, local, expected, applied, added)
      else if item.key in added then None
      else
        var next := applied[item.key := item.value];
        ReplayAdded(items[1..], base, local,
                    Reconciled(expected, next, Some((item.key, item.lastModified))), next, added + {item.key})
  }

  function AllItems(blocks: seq<Block>): seq<Item> {
    if blocks == [] then [] else blocks[0].items + AllItems(blocks[1..])
  }

  /** Local's blocks are what replaying its edits onto the base blocks would give. */
  predicate Replayable(base: Side, local: Side) {
    var units := Units(local.values, local.blocks);
    var applied := map key | key in local.values && key in base.values :: local.values[key];
    var start := Reconciled(Fidelity(base.blocks, [], []), applied, None);
    var replayed := ReplayAdded(AllItems(local.blocks), base.values, local.values,
                                start.(blocks := WithStamps(start.blocks, units)), applied, {});
    replayed.Some? && WithStamps(replayed.value.blocks, units) == local.blocks
  }

  predicate RebaseRepresentable(base: Side, local: Side, remoteBlocks: seq<Block>) {
    || local.blocks == base.blocks
    || remoteBlocks == base.blocks
    || local.blocks == remoteBlocks
    || Replayable(base, local)
  }

  datatype Merged = Merged(values: map<Text, Text>, fidelity: Fidelity)

  /** Only local rearranged its blocks, in a way its edits do not explain. */
  predicate FidelityOnly(base: Side, local: Side, remote: Side) {
    local.blocks != base.blocks && remote.blocks == base.blocks && !Replayable(base, local)
  }

  function MergedSide(base: Side, local: Side, remote: Side, preferLocal: bool,
                      opaqueXml: seq<OpaqueXmlFragment>, nodeOrder: seq<Text>): Merged
  {
    var units := MergedUnits(Units(base.values, base.blocks), Units(local.values, local.blocks),
                             Units(remote.values, remote.blocks), preferLocal);
    var values := UnitValues(units);
    var carrier := if FidelityOnly(base, local, remote) then local.blocks else remote.blocks;
    var f := Reconciled(Fidelity(carrier, opaqueXml, nodeOrder), values, None);
    Merged(values, f.(blocks := WithStamps(f.blocks, units)))
  }

  /** Stamping blocks that agree with the units' values makes them read back as the units. */
  lemma StampedUnits(blocks: seq<Block>, units: map<Text, Unit>)
    requires Agrees(blocks, UnitValues(units))
    ensures Agrees(WithStamps(blocks, units), UnitValues(units))
    ensures Units(UnitValues(units), WithStamps(blocks, units)) == units
  {
    ViewRevised(blocks, map[], UnitStamps(units));
    ViewKeys(blocks);
  }

  /** Reading the merged blocks with the merged map gives back exactly the merged units. */
  lemma MergeAgreement(base: Side, local: Side, remote: Side, preferLocal: bool,
                       opaqueXml: seq<OpaqueXmlFragment>, nodeOrder: seq<Text>)
    ensures var m := MergedSide(base, local, remote, preferLocal, opaqueXml, nodeOrder);
      && Agrees(m.fidelity.blocks, m.values)
      && Units(m.values, m.fidelity.blocks)
         == MergedUnits(Units(base.values, base.blocks), Units(local.values, local.blocks),
                        Units(remote.values, remote.blocks), preferLocal)
  {
    var units := MergedUnits(Units(base.values, base.blocks), Units(local.values, local.blocks),
                             Units(remote.values, remote.blocks), preferLocal);
    var start := Fidelity(if FidelityOnly(base, local, remote) then local.blocks else remote.blocks, opaqueXml, nodeOrder);
    ReconciledAgrees(start, UnitValues(units), None);
    StampedUnits(Reconciled(start, UnitValues(units), None).blocks, units);
  }
}
