/** What merging custom data does to items, times, blocks and anchors, in terms of the three sides' items. */
module CustomDataFates {
  import opened Wrappers
  import opened TextOrder
  import opened FidelitySlots
  import opened FieldMerge
  import opened CustomData

  // ---- The item that is read ----

  /** The last item of a key. */
  function LastOf(items: seq<Item>, key: Text): Option<Item> {
    if items == [] then None
    else if items[|items| - 1].key == key then Some(items[|items| - 1])
    else LastOf(items[..|items| - 1], key)
  }

  lemma {:induction false} AllItemsConcat(a: seq<Block>, b: seq<Block>)
    ensures AllItems(a + b) == AllItems(a) + AllItems(b)
  {
    if a == [] {
      assert a + b == b;
    } else {
      assert (a + b)[1..] == a[1..] + b;
      AllItemsConcat(a[1..], b);
    }
  }

  lemma AllItemsPush(blocks: seq<Block>, block: Block)
    ensures AllItems(blocks + [block]) == AllItems(blocks) + block.items
  {
    AllItemsConcat(blocks, [block]);
    assert [block][1..] == [];
  }

  lemma {:induction false} LastOfConcat(a: seq<Item>, b: seq<Item>, key: Text)
    ensures LastOf(a + b, key) == if LastOf(b, key).Some? then LastOf(b, key) else LastOf(a, key)
  {
    if b == [] {
      assert a + b == a;
    } else {
      assert (a + b)[..|a + b| - 1] == a + b[..|b| - 1];
      LastOfConcat(a, b[..|b| - 1], key);
    }
  }

  lemma {:induction false} ItemsRead(items: seq<Item>, key: Text)
    ensures Get(ViewItems(items), key) == LastOf(items, key)
    ensures key in ItemKeys(items) <==> LastOf(items, key).Some?
    ensures LastOf(items, key).Some? ==> LastOf(items, key).value.key == key
  {
    if items != [] {
      ItemsRead(items[..|items| - 1], key);
    }
  }

  /** Reading blocks gives the last item of a key. */
  lemma {:induction false} BlocksRead(blocks: seq<Block>, key: Text)
    ensures Get(View(blocks), key) == LastOf(AllItems(blocks), key)
  {
    if blocks != [] {
      var init, last := blocks[..|blocks| - 1], blocks[|blocks| - 1];
      BlocksRead(init, key);
      ItemsRead(last.items, key);
      assert blocks == init + [last];
      AllItemsPush(init, last);
      LastOfConcat(AllItems(init), last.items, key);
    }
  }

  // ---- Values and times ----

  /** The side has the key, with this value. */
  ghost predicate Holds(side: Side, key: Text, value: Text) {
    key in side.values && side.values[key] == value
  }

  /** When the side's item of the key was last modified. */
  function StampIn(side: Side, key: Text): Option<int> {
    var item := LastOf(AllItems(side.blocks), key);
    if item.Some? then item.value.lastModified else None
  }

  ghost predicate LaterOf(a: Option<int>, b: Option<int>, m: Option<int>) {
    && (a.None? ==> m == b) && (b.None? ==> m == a)
    && (a.Some? && b.Some? ==> m.Some? && m.value >= a.value && m.value >= b.value && (m == a || m == b))
  }

  /** The merged time of a key is that of a side holding the merged value, the later where both do. */
  ghost predicate StampKept(local: Side, remote: Side, merged: Side, key: Text)
    requires key in merged.values
  {
    var value, at := merged.values[key], StampIn(merged, key);
    && (Holds(local, key, value) || Holds(remote, key, value))
    && (Holds(local, key, value) && !Holds(remote, key, value) ==> at == StampIn(local, key))
    && (Holds(remote, key, value) && !Holds(local, key, value) ==> at == StampIn(remote, key))
    && (Holds(local, key, value) && Holds(remote, key, value) ==>
          LaterOf(StampIn(local, key), StampIn(remote, key), at))
  }

  /** The blocks hold exactly the map's keys, and the item read of each has the map's value. */
  ghost predicate Matches(side: Side) {
    forall key ::
      && (key in side.values <==> LastOf(AllItems(side.blocks), key).Some?)
      && (key in side.values ==> LastOf(AllItems(side.blocks), key).value.value == side.values[key])
  }

  lemma UnitOf(side: Side, key: Text)
    ensures Get(Units(side.values, side.blocks), key)
         == if key in side.values then Some(Unit(side.values[key], StampIn(side, key))) else None
  {
    BlocksRead(side.blocks, key);
  }

  lemma MergedStamp(l: Option<Unit>, r: Option<Unit>, b: Option<Unit>, preferLocal: bool)
    ensures var m := MergedUnit(b, l, r, preferLocal);
      m.Some? ==>
        var inLocal, inRemote := l.Some? && l.value.value == m.value.value, r.Some? && r.value.value == m.value.value;
        && (inLocal || inRemote)
        && (inLocal && !inRemote ==> m.value.lastModified == l.value.lastModified)
        && (inRemote && !inLocal ==> m.value.lastModified == r.value.lastModified)
        && (inLocal && inRemote ==> LaterOf(l.value.lastModified, r.value.lastModified, m.value.lastModified))
  {
  }

  /** The merged blocks match the merged map, and every key's time comes from a side holding its value. */
  lemma MergedStamps(base: Side, local: Side, remote: Side, preferLocal: bool,
                     opaqueXml: seq<OpaqueXmlFragment>, nodeOrder: seq<Text>)
    ensures var m := MergedSide(base, local, remote, preferLocal, opaqueXml, nodeOrder);
      var merged := Side(m.values, m.fidelity.blocks);
      Matches(merged) && forall key :: key in merged.values ==> StampKept(local, remote, merged, key)
  {
    MergeAgreement(base, local, remote, preferLocal, opaqueXml, nodeOrder);
    hide MergedSide, MergedUnit, View, Units, AllItems, LastOf;
    var m := MergedSide(base, local, remote, preferLocal, opaqueXml, nodeOrder);
    var merged := Side(m.values, m.fidelity.blocks);
    forall key
      ensures key in merged.values <==> LastOf(AllItems(merged.blocks), key).Some?
      ensures key in merged.values ==>
        LastOf(AllItems(merged.blocks), key).value.value == merged.values[key] && StampKept(local, remote, merged, key)
    {
      BlocksRead(merged.blocks, key);
      UnitOf(base, key);
      UnitOf(local, key);
      UnitOf(remote, key);
      UnitOf(merged, key);
      if key in merged.values {
        MergedStamp(Get(Units(local.values, local.blocks), key), Get(Units(remote.values, remote.blocks), key),
                    Get(Units(base.values, base.blocks), key), preferLocal);
      }
    }
  }

  // ---- Which items survive, and in what order ----

  predicate OccursAfter(items: seq<Item>, k: nat)
    requires k < |items|
  {
    exists j | k < j < |items| :: items[j].key == items[k].key
  }

  /** The items whose key stays. */
  function KeptItems(items: seq<Item>, keys: set<Text>): seq<Item> {
    if items == [] then []
    else (if items[0].key in keys then [items[0]] else []) + KeptItems(items[1..], keys)
  }

  /**
    The items of the carrier whose key stays come first, in their order, and all
    but the last of each key as they were; then the keys it lacked, in order.
   */
  ghost predicate Carries(carrier: seq<Item>, values: map<Text, Text>, items: seq<Item>) {
    var kept := KeptItems(carrier, values.Keys);
    && |kept| <= |items|
    && (forall k :: 0 <= k < |kept| ==> items[k].key == kept[k].key && (OccursAfter(kept, k) ==> items[k] == kept[k]))
    && (forall k :: |kept| <= k < |items| ==> items[k].key in values && LastOf(kept, items[k].key) == None)
    && (forall j, k :: |kept| <= j < k < |items| ==> Less(items[j].key, items[k].key))
  }

  lemma {:induction false} KeptConcat(a: seq<Item>, b: seq<Item>, keys: set<Text>)
    ensures KeptItems(a + b, keys) == KeptItems(a, keys) + KeptItems(b, keys)
  {
    if a == [] {
      assert a + b == b;
    } else {
      var head: seq<Item> := if a[0].key in keys then [a[0]] else [];
      assert (a + b)[1..] == a[1..] + b && (a + b)[0] == a[0];
      KeptConcat(a[1..], b, keys);
      assert head + (KeptItems(a[1..], keys) + KeptItems(b, keys)) == head + KeptItems(a[1..], keys) + KeptItems(b, keys);
    }
  }

  lemma {:induction false} FilterIsKept(items: seq<Item>, keys: set<Text>)
    ensures FilterItems(items, keys) == KeptItems(items, keys)
  {
    if items != [] {
      var init, last := items[..|items| - 1], items[|items| - 1];
      FilterIsKept(init, keys);
      assert items == init + [last];
      KeptConcat(init, [last], keys);
      assert [last][1..] == [];
    }
  }

  lemma {:induction false} RetainedItems(blocks: seq<Block>, keys: set<Text>)
    ensures AllItems(RetainBlocks(blocks, keys).blocks) == KeptItems(AllItems(blocks), keys)
  {
    if blocks != [] {
      var init, last := blocks[..|blocks| - 1], blocks[|blocks| - 1];
      RetainedItems(init, keys);
      FilterIsKept(last.items, keys);
      assert blocks == init + [last];
      AllItemsPush(init, last);
      KeptConcat(AllItems(init), last.items, keys);
      var r := RetainBlocks(init, keys);
      var items := FilterItems(last.items, keys);
      if last.items == [] || items != [] {
        AllItemsPush(r.blocks, Block(items, RetargetCustomData(last.after, r.anchors)));
      }
    }
  }

  /** Revising last occurrences, seen on the items alone. */
  function RevisedItems(items: seq<Item>, values: map<Text, Text>, stamps: map<Text, Option<int>>): seq<Item> {
    seq(|items|, k requires 0 <= k < |items| =>
      if items[k].key !in ItemKeys(items[k + 1..]) then Revised(items[k], values, stamps) else items[k])
  }

  lemma {:induction false} ItemKeysConcat(a: seq<Item>, b: seq<Item>)
    ensures ItemKeys(a + b) == ItemKeys(a) + ItemKeys(b)
  {
    if b == [] {
      assert a + b == a;
    } else {
      assert (a + b)[..|a + b| - 1] == a + b[..|b| - 1];
      ItemKeysConcat(a, b[..|b| - 1]);
    }
  }

  lemma {:induction false} BlockKeysAreItemKeys(blocks: seq<Block>)
    ensures BlockKeys(blocks) == ItemKeys(AllItems(blocks))
  {
    if blocks != [] {
      var init, last := blocks[..|blocks| - 1], blocks[|blocks| - 1];
      BlockKeysAreItemKeys(init);
      assert blocks == init + [last];
      AllItemsPush(init, last);
      ItemKeysConcat(AllItems(init), last.items);
    }
  }

  /** The same for items that others come after. */
  function RevisedBefore(items: seq<Item>, later: set<Text>, values: map<Text, Text>, stamps: map<Text, Option<int>>)
    : seq<Item>
  {
    seq(|items|, k requires 0 <= k < |items| =>
      if items[k].key !in ItemKeys(items[k + 1..]) && items[k].key !in later then Revised(items[k], values, stamps)
      else items[k])
  }

  lemma LaterKeys(a: seq<Item>, b: seq<Item>, k: nat)
    requires k < |a + b|
    ensures ItemKeys((a + b)[k + 1..]) ==
      if k < |a| then ItemKeys(a[k + 1..]) + ItemKeys(b) else ItemKeys(b[k - |a| + 1..])
  {
    if k < |a| {
      assert (a + b)[k + 1..] == a[k + 1..] + b;
      ItemKeysConcat(a[k + 1..], b);
    } else {
      assert (a + b)[k + 1..] == b[k - |a| + 1..];
    }
  }

  lemma RevisedConcat(a: seq<Item>, b: seq<Item>, values: map<Text, Text>, stamps: map<Text, Option<int>>)
    ensures RevisedItems(a + b, values, stamps) == RevisedBefore(a, ItemKeys(b), values, stamps) + RevisedItems(b, values, stamps)
  {
    hide Revised, ItemKeys;
    forall k | 0 <= k < |a + b|
      ensures RevisedItems(a + b, values, stamps)[k]
           == (RevisedBefore(a, ItemKeys(b), values, stamps) + RevisedItems(b, values, stamps))[k]
    {
      LaterKeys(a, b, k);
    }
  }

  lemma FirstRevised(blocks: seq<Block>, values: map<Text, Text>, stamps: map<Text, Option<int>>)
    requires blocks != []
    ensures ReviseLast(blocks, values, stamps)[0].items
         == RevisedBefore(blocks[0].items, BlockKeys(blocks[1..]), values, stamps)
    ensures ReviseLast(blocks, values, stamps)[1..] == ReviseLast(blocks[1..], values, stamps)
  {
    hide Revised, ItemKeys, BlockKeys;
    var rest := blocks[1..];
    forall i, j | 0 <= i < |rest| && 0 <= j < |rest[i].items| ensures LastAt(rest, i, j) == LastAt(blocks, i + 1, j) {
      assert rest[i + 1..] == blocks[i + 2..];
    }
    forall i | 0 <= i < |rest|
      ensures ReviseLast(blocks, values, stamps)[i + 1].items == ReviseLast(rest, values, stamps)[i].items
    {
    }
  }

  lemma {:induction false} ReviseFlat(blocks: seq<Block>, values: map<Text, Text>, stamps: map<Text, Option<int>>)
    ensures AllItems(ReviseLast(blocks, values, stamps)) == RevisedItems(AllItems(blocks), values, stamps)
  {
    if blocks != [] {
      hide ReviseLast, RevisedItems, RevisedBefore;
      ReviseFlat(blocks[1..], values, stamps);
      FirstRevised(blocks, values, stamps);
      BlockKeysAreItemKeys(blocks[1..]);
      RevisedConcat(blocks[0].items, AllItems(blocks[1..]), values, stamps);
      assert |ReviseLast(blocks, values, stamps)| == |blocks| by {
        SameCount(blocks, values, stamps);
      }
    } else {
      SameCount(blocks, values, stamps);
    }
  }

  lemma SameCount(blocks: seq<Block>, values: map<Text, Text>, stamps: map<Text, Option<int>>)
    ensures |ReviseLast(blocks, values, stamps)| == |blocks|
    ensures RevisedItems([], values, stamps) == []
  {
  }

  lemma AppendedItems(blocks: seq<Block>, items: seq<Item>)
    ensures AllItems(AppendItems(blocks, items)) == AllItems(blocks) + items
  {
    if items != [] {
      if blocks == [] {
        AllItemsPush([], Block(items, None));
        assert [] + [Block(items, None)] == [Block(items, None)];
      } else {
        var init, last := blocks[..|blocks| - 1], blocks[|blocks| - 1];
        assert blocks == init + [last];
        AllItemsPush(init, last);
        AllItemsPush(init, last.(items := last.items + items));
      }
    }
  }

  lemma RevisedKeeps(items: seq<Item>, values: map<Text, Text>, stamps: map<Text, Option<int>>, k: nat)
    requires k < |items|
    ensures var revised := RevisedItems(items, values, stamps);
      |revised| == |items| && revised[k].key == items[k].key && (OccursAfter(items, k) ==> revised[k] == items[k])
  {
    if OccursAfter(items, k) {
      var j :| k < j < |items| && items[j].key == items[k].key;
      assert items[k + 1..][j - k - 1] == items[j];
      InItemKeys(items[k + 1..], j - k - 1);
    }
  }

  lemma {:induction false} InItemKeys(items: seq<Item>, j: nat)
    requires j < |items|
    ensures items[j].key in ItemKeys(items)
  {
    if j < |items| - 1 {
      InItemKeys(items[..|items| - 1], j);
    }
  }

  /** Reconciliation carries the items of the blocks it is given. */
  lemma ReconciledCarries(f: Fidelity, merged: map<Text, Text>, units: map<Text, Unit>)
    ensures Carries(AllItems(f.blocks), merged, AllItems(WithStamps(Reconciled(f, merged, None).blocks, units)))
  {
    hide ReviseLast, AppendItems, RetainBlocks, RetainNodes, RetargetAll, RevisedItems, KeptItems, AllItems, Revised;
    var kept := KeptItems(AllItems(f.blocks), merged.Keys);
    var retained := RetainBlocks(f.blocks, merged.Keys).blocks;
    var revised := ReviseLast(retained, merged, StampsOf(None));
    var missing := SortTexts(merged.Keys - BlockKeys(revised));
    assert forall k :: k in missing <==> k in Elements(missing);
    var newer := NewItems(missing, merged, StampsOf(None));
    RetainedItems(f.blocks, merged.Keys);
    ReviseFlat(retained, merged, StampsOf(None));
    AppendedItems(revised, newer);
    var items := RevisedItems(kept, merged, StampsOf(None));
    ReviseFlat(AppendItems(revised, newer), map[], UnitStamps(units));
    BlockKeysAreItemKeys(revised);
    CarriedItems(kept, items, newer, missing, merged, UnitStamps(units));
  }

  lemma CarriedItems(kept: seq<Item>, items: seq<Item>, newer: seq<Item>, missing: seq<Text>, merged: map<Text, Text>,
                     stamps: map<Text, Option<int>>)
    requires items == RevisedItems(kept, merged, map[])
    requires Increasing(missing) && forall key :: key in missing <==> key in merged.Keys - ItemKeys(items)
    requires |newer| == |missing| && forall k :: 0 <= k < |missing| ==> newer[k].key == missing[k]
    ensures var result := RevisedItems(items + newer, map[], stamps);
      && |kept| <= |result|
      && (forall k :: 0 <= k < |kept| ==> result[k].key == kept[k].key && (OccursAfter(kept, k) ==> result[k] == kept[k]))
      && (forall k :: |kept| <= k < |result| ==> result[k].key in merged && LastOf(kept, result[k].key) == None)
      && (forall j, k :: |kept| <= j < k < |result| ==> Less(result[j].key, result[k].key))
  {
    hide RevisedItems, ItemKeys, Less;
    var all := items + newer;
    var result := RevisedItems(all, map[], stamps);
    SameLength(kept, merged, map[]);
    SameLength(all, map[], stamps);
    forall k | 0 <= k < |all| ensures result[k].key == all[k].key && (OccursAfter(all, k) ==> result[k] == all[k]) {
      RevisedKeeps(all, map[], stamps, k);
    }
    forall k | 0 <= k < |kept|
      ensures items[k].key == kept[k].key
      ensures OccursAfter(kept, k) ==> items[k] == kept[k] && OccursAfter(all, k)
    {
      RevisedKeeps(kept, merged, map[], k);
      if OccursAfter(kept, k) {
        StillOccurs(kept, items, newer, merged, k);
      }
    }
    forall k | |kept| <= k < |result| ensures result[k].key in merged && LastOf(kept, result[k].key) == None {
      assert all[k] == newer[k - |kept|] && all[k].key == missing[k - |kept|];
      assert all[k].key in missing;
      SameRead(kept, merged, all[k].key);
    }
  }

  lemma SameLength(items: seq<Item>, values: map<Text, Text>, stamps: map<Text, Option<int>>)
    ensures |RevisedItems(items, values, stamps)| == |items|
  {
  }

  lemma StillOccurs(kept: seq<Item>, items: seq<Item>, newer: seq<Item>, merged: map<Text, Text>, k: nat)
    requires items == RevisedItems(kept, merged, map[]) && k < |kept| && OccursAfter(kept, k)
    ensures k < |items| && OccursAfter(items + newer, k)
  {
    var j :| k < j < |kept| && kept[j].key == kept[k].key;
    assert (items + newer)[j].key == (items + newer)[k].key;
  }

  /** Revising leaves every key where it was. */
  lemma SameRead(items: seq<Item>, values: map<Text, Text>, key: Text)
    requires key !in ItemKeys(RevisedItems(items, values, map[]))
    ensures LastOf(items, key) == None
  {
    var revised := RevisedItems(items, values, map[]);
    SameItemKeys(revised, items);
    ItemsRead(items, key);
  }

  // ---- Replaying local's edits in one pass ----

  /** The items local added to keys the base does not have. */
  function Added(items: seq<Item>, base: map<Text, Text>, local: map<Text, Text>): seq<Item> {
    if items == [] then []
    else (if items[0].key !in base && items[0].key in local then [items[0]] else []) + Added(items[1..], base, local)
  }

  ghost predicate NoneTwice(items: seq<Item>) {
    forall i, j :: 0 <= i < j < |items| ==> items[i].key != items[j].key
  }

  /** The base blocks with local's values and times for the keys both have. */
  function Rewritten(base: Side, local: Side): seq<Block> {
    var shared := map key | key in local.values && key in base.values :: local.values[key];
    WithStamps(Reconciled(Fidelity(base.blocks, [], []), shared, None).blocks, Units(local.values, local.blocks))
  }

  /** Local's blocks are the rewritten base blocks with each added item put at the end, once. */
  ghost predicate EditedInPlace(base: Side, local: Side) {
    var added := Added(AllItems(local.blocks), base.values, local.values);
    && NoneTwice(added)
    && local.blocks == WithStamps(AppendItems(Rewritten(base, local), added), Units(local.values, local.blocks))
  }

  lemma AppendTwice(blocks: seq<Block>, a: seq<Item>, b: seq<Item>)
    ensures AppendItems(AppendItems(blocks, a), b) == AppendItems(blocks, a + b)
  {
    if a == [] {
      assert a + b == b;
    } else if b == [] {
      assert a + b == a;
    } else if blocks == [] {
      assert [Block(a, None)][..0] == [];
      assert [] + [Block(a + b, None)] == [Block(a + b, None)];
    } else {
      var n := |blocks| - 1;
      var last := blocks[n].(items := blocks[n].items + a);
      assert (blocks[..n] + [last])[..n] == blocks[..n];
      assert blocks[n].items + a + b == blocks[n].items + (a + b);
    }
  }

  lemma NewItem(values: map<Text, Text>, item: Item)
    ensures var next, stamps := values[item.key := item.value], StampsOf(Some((item.key, item.lastModified)));
      && SortTexts({item.key}) == [item.key] && NewItems([item.key], next, stamps) == [item]
  {
    var q := SortTexts({item.key});
    assert q[0] in Elements(q);
  }

  lemma NothingElse(keep: seq<bool>, anchors: seq<Option<Anchor>>)
    ensures RetainNodes([], keep) == [] && RetargetAll([], anchors) == []
  {
  }

  /** Reconciling blocks with one key more appends its item. */
  lemma ReconcileAdds(blocks: seq<Block>, values: map<Text, Text>, item: Item)
    requires Agrees(blocks, values) && item.key !in values
    ensures Reconciled(Fidelity(blocks, [], []), values[item.key := item.value], Some((item.key, item.lastModified)))
         == Fidelity(AppendItems(blocks, [item]), [], [])
  {
    var next, stamps := values[item.key := item.value], StampsOf(Some((item.key, item.lastModified)));
    ViewKeys(blocks);
    RetainKeepsAll(blocks, next.Keys);
    ReviseKeepsAll(blocks, next, stamps);
    assert next.Keys - BlockKeys(blocks) == {item.key};
    hide Agrees, View, RetainBlocks, ReviseLast, BlockKeys, SortTexts, NewItems, AppendItems, RetainNodes, RetargetAll;
    NewItem(values, item);
    NothingElse(KeptWhole(blocks).occurrences, KeptWhole(blocks).anchors);
  }

  lemma AppendAgrees(blocks: seq<Block>, values: map<Text, Text>, item: Item)
    requires Agrees(blocks, values) && item.key !in values
    ensures Agrees(AppendItems(blocks, [item]), values[item.key := item.value])
  {
    ViewAppended(blocks, [item]);
    assert ViewItems([item]) == map[item.key := item] by {
      assert [item][..0] == [];
    }
  }

  /** Keys added so far do not come again. */
  ghost predicate Disjoint(items: seq<Item>, added: set<Text>) {
    forall i :: 0 <= i < |items| ==> items[i].key !in added
  }

  lemma ConsNoneTwice(item: Item, rest: seq<Item>)
    ensures NoneTwice([item] + rest) <==> NoneTwice(rest) && Disjoint(rest, {item.key})
  {
    var all := [item] + rest;
    if NoneTwice(all) {
      forall i, j | 0 <= i < j < |rest| ensures rest[i].key != rest[j].key {
        assert all[i + 1].key != all[j + 1].key;
      }
      forall i | 0 <= i < |rest| ensures rest[i].key !in {item.key} {
        assert all[0].key != all[i + 1].key;
      }
    }
  }

  lemma ConsDisjoint(item: Item, rest: seq<Item>, added: set<Text>)
    ensures Disjoint([item] + rest, added) <==> item.key !in added && Disjoint(rest, added)
    ensures Disjoint(rest, added + {item.key}) <==> Disjoint(rest, added) && Disjoint(rest, {item.key})
  {
    var all := [item] + rest;
    if Disjoint(all, added) {
      assert all[0].key !in added;
      forall i | 0 <= i < |rest| ensures rest[i].key !in added {
        assert all[i + 1].key !in added;
      }
    }
  }

  /** The replay appends the added items one by one, and fails exactly on one that comes twice. */
  lemma {:induction false} ReplayAppends(items: seq<Item>, base: map<Text, Text>, local: map<Text, Text>,
                                         blocks: seq<Block>, applied: map<Text, Text>, added: set<Text>)
    requires Agrees(blocks, applied)
    requires forall key :: key in applied <==> (key in base && key in local) || key in added
    requires forall key :: key in added ==> key !in base && key in local
    ensures var todo := Added(items, base, local);
      var replayed := ReplayAdded(items, base, local, Fidelity(blocks, [], []), applied, added);
      && (replayed.Some? <==> NoneTwice(todo) && Disjoint(todo, added))
      && (replayed.Some? ==> replayed.value.blocks == AppendItems(blocks, todo))
    decreases |items|
  {
    hide Agrees, Reconciled, AppendItems, NoneTwice, Disjoint;
    if items == [] {
      NothingAdded(blocks, added);
    } else {
      var item, rest := items[0], items[1..];
      var todo := Added(rest, base, local);
      if item.key in base || item.key !in local {
        ReplayAppends(rest, base, local, blocks, applied, added);
        assert Added(items, base, local) == todo;
      } else {
        assert Added(items, base, local) == [item] + todo;
        ConsNoneTwice(item, todo);
        ConsDisjoint(item, todo, added);
        if item.key !in added {
          ReconcileAdds(blocks, applied, item);
          AppendAgrees(blocks, applied, item);
          ReplayAppends(rest, base, local, AppendItems(blocks, [item]), applied[item.key := item.value], added + {item.key});
          AppendTwice(blocks, [item], todo);
        }
      }
    }
  }

  lemma NothingAdded(blocks: seq<Block>, added: set<Text>)
    ensures NoneTwice([]) && Disjoint([], added) && AppendItems(blocks, []) == blocks
  {
  }

  lemma RewrittenAgrees(base: Side, local: Side)
    ensures Agrees(Rewritten(base, local), map key | key in local.values && key in base.values :: local.values[key])
    ensures var shared := map key | key in local.values && key in base.values :: local.values[key];
      var start := Reconciled(Fidelity(base.blocks, [], []), shared, None);
      start.(blocks := Rewritten(base, local)) == Fidelity(Rewritten(base, local), [], [])
  {
    var shared := map key | key in local.values && key in base.values :: local.values[key];
    var f := Fidelity(base.blocks, [], []);
    ReconciledAgrees(f, shared, None);
    hide Units;
    ViewRevised(Reconciled(f, shared, None).blocks, map[], UnitStamps(Units(local.values, local.blocks)));
  }

  /** Replaying local's edits one by one succeeds exactly when they were made in place. */
  lemma ReplayIsOnePass(base: Side, local: Side)
    ensures Replayable(base, local) <==> EditedInPlace(base, local)
  {
    var shared := map key | key in local.values && key in base.values :: local.values[key];
    RewrittenAgrees(base, local);
    ReplayAppends(AllItems(local.blocks), base.values, local.values, Rewritten(base, local), shared, {});
    NothingYet(Added(AllItems(local.blocks), base.values, local.values));
    hide Reconciled, Agrees, WithStamps, AppendItems, Units, AllItems, Added, NoneTwice, Disjoint;
  }

  lemma NothingYet(items: seq<Item>)
    ensures Disjoint(items, {})
  {
  }

  /** Local's blocks can be joined with remote's: only one side has new ones, or both the same, or local edited in place. */
  ghost predicate Joinable(base: Side, local: Side, remoteBlocks: seq<Block>) {
    || local.blocks == base.blocks || remoteBlocks == base.blocks || local.blocks == remoteBlocks
    || EditedInPlace(base, local)
  }

  lemma JoinableExactly(base: Side, local: Side, remoteBlocks: seq<Block>)
    ensures RebaseRepresentable(base, local, remoteBlocks) <==> Joinable(base, local, remoteBlocks)
  {
    ReplayIsOnePass(base, local);
    hide Replayable, EditedInPlace;
  }

  /**
    Remote's blocks carry the merge, unless only local has new ones, and not by
    editing in place: then local's do.
   */
  lemma MergedCarries(base: Side, local: Side, remote: Side, preferLocal: bool,
                      opaqueXml: seq<OpaqueXmlFragment>, nodeOrder: seq<Text>)
    ensures var m := MergedSide(base, local, remote, preferLocal, opaqueXml, nodeOrder);
      var localCarries :=
        local.blocks != base.blocks && remote.blocks == base.blocks && !EditedInPlace(base, local);
      Carries(AllItems(if localCarries then local.blocks else remote.blocks), m.values, AllItems(m.fidelity.blocks))
  {
    ReplayIsOnePass(base, local);
    hide Replayable, EditedInPlace, Reconciled, WithStamps, MergedUnits, Units, Carries, AllItems;
    var units := MergedUnits(Units(base.values, base.blocks), Units(local.values, local.blocks),
                             Units(remote.values, remote.blocks), preferLocal);
    var carrier := if FidelityOnly(base, local, remote) then local.blocks else remote.blocks;
    ReconciledCarries(Fidelity(carrier, opaqueXml, nodeOrder), UnitValues(units), units);
  }
}
