/** The in-place forms of CustomData reconciliation, proved against their specification. */
module CustomDataInPlace {
  import opened Wrappers
  import opened TextOrder
  import opened FidelitySlots
  import opened CustomData

  type Position = (nat, nat)

  function ItemPositions(items: seq<Item>): map<Text, nat> {
    if items == [] then map[]
    else ItemPositions(items[..|items| - 1])[items[|items| - 1].key := |items| - 1]
  }

  function AtBlock(i: nat, positions: map<Text, nat>): map<Text, Position> {
    map k | k in positions :: (i, positions[k])
  }

  /** The table of last positions that one scan builds. */
  function Positions(blocks: seq<Block>): map<Text, Position> {
    if blocks == [] then map[]
    else Positions(blocks[..|blocks| - 1]) + AtBlock(|blocks| - 1, ItemPositions(blocks[|blocks| - 1].items))
  }

  lemma {:induction false} ItemTableKeys(items: seq<Item>)
    ensures ItemPositions(items).Keys == ItemKeys(items)
    ensures forall k :: k in ItemPositions(items) ==> ItemPositions(items)[k] < |items|
  {
    if items != [] {
      ItemTableKeys(items[..|items| - 1]);
    }
  }

  lemma {:induction false} ItemTableIsExact(items: seq<Item>, j: nat)
    requires j < |items|
    ensures items[j].key in ItemPositions(items)
    ensures (items[j].key !in ItemKeys(items[j + 1..])) == (ItemPositions(items)[items[j].key] == j)
  {
    var n := |items| - 1;
    if j < n {
      ItemTableIsExact(items[..n], j);
      assert items[..n][j] == items[j];
      var later := items[j + 1..];
      assert later != [] && later[|later| - 1] == items[n] && later[..|later| - 1] == items[..n][j + 1..];
    } else {
      assert items[j + 1..] == [];
    }
  }

  lemma {:induction false} TableKeys(blocks: seq<Block>)
    ensures Positions(blocks).Keys == BlockKeys(blocks)
    ensures forall k :: k in Positions(blocks) ==> Positions(blocks)[k].0 < |blocks|
  {
    if blocks != [] {
      TableKeys(blocks[..|blocks| - 1]);
      ItemTableKeys(blocks[|blocks| - 1].items);
    }
  }

  /** The table holds a position exactly when that position is the last one of its key. */
  lemma {:induction false} TableIsExact(blocks: seq<Block>, i: nat, j: nat)
    requires i < |blocks| && j < |blocks[i].items|
    ensures var key := blocks[i].items[j].key;
      key in Positions(blocks) && LastAt(blocks, i, j) == (Positions(blocks)[key] == (i, j))
  {
    var n := |blocks| - 1;
    TableKeys(blocks[..n]);
    ItemTableKeys(blocks[n].items);
    if i < n {
      TableIsExact(blocks[..n], i, j);
      assert blocks[i + 1..][..n - i - 1] == blocks[..n][i + 1..];
    } else {
      ItemTableIsExact(blocks[n].items, j);
      assert blocks[i + 1..] == [];
    }
  }

  /** Every table entry is a position of its key. */
  lemma {:induction false} TableEntry(blocks: seq<Block>, key: Text)
    requires key in Positions(blocks)
    ensures var (i, j) := Positions(blocks)[key];
      i < |blocks| && j < |blocks[i].items| && blocks[i].items[j].key == key
  {
    TableKeys(blocks);
    var i, j := LastPosition(blocks, key);
    TableIsExact(blocks, i, j);
  }

  lemma ScanItem(before: map<Text, Position>, items: seq<Item>, i: nat, j: nat)
    requires j < |items|
    ensures before + AtBlock(i, ItemPositions(items[..j + 1]))
         == (before + AtBlock(i, ItemPositions(items[..j])))[items[j].key := (i, j)]
  {
    assert items[..j + 1][..j] == items[..j];
    var rest := ItemPositions(items[..j]);
    assert AtBlock(i, rest[items[j].key := j]) == AtBlock(i, rest)[items[j].key := (i, j)];
  }

  method LastPositions(blocks: seq<Block>) returns (last: map<Text, Position>)
    ensures last == Positions(blocks)
  {
    last := map[];
    for i := 0 to |blocks|
      invariant last == Positions(blocks[..i])
    {
      var items := blocks[i].items;
      ghost var before := last;
      for j := 0 to |items|
        invariant last == before + AtBlock(i, ItemPositions(items[..j]))
      {
        ScanItem(before, items, i, j);
        last := last[items[j].key := (i, j)];
      }
      assert items[..|items|] == items;
      assert Positions(blocks[..i]) == before;
      assert blocks[..i + 1][..i] == blocks[..i];
    }
    assert blocks[..|blocks|] == blocks;
  }

  /** `blocks` is `original` with the last items of the keys in `done` revised. */
  ghost predicate RevisedFor(blocks: seq<Block>, original: seq<Block>, done: set<Text>,
                             values: map<Text, Text>, stamps: map<Text, Option<int>>)
  {
    && |blocks| == |original|
    && (forall i :: 0 <= i < |blocks| ==>
          blocks[i].after == original[i].after && |blocks[i].items| == |original[i].items|)
    && (forall i, j :: 0 <= i < |blocks| && 0 <= j < |blocks[i].items| ==>
          blocks[i].items[j] == if LastAt(original, i, j) && original[i].items[j].key in done
                                then Revised(original[i].items[j], values, stamps) else original[i].items[j])
  }

  lemma RevisedForAll(blocks: seq<Block>, original: seq<Block>, done: set<Text>,
                      values: map<Text, Text>, stamps: map<Text, Option<int>>)
    requires RevisedFor(blocks, original, done, values, stamps)
    requires forall k :: k in BlockKeys(original) && k !in done ==> k !in values && k !in stamps
    ensures blocks == ReviseLast(original, values, stamps)
  {
    var revised := ReviseLast(original, values, stamps);
    TableKeys(original);
    forall i | 0 <= i < |blocks| ensures blocks[i] == revised[i] {
      forall j | 0 <= j < |blocks[i].items| ensures blocks[i].items[j] == revised[i].items[j] {
        TableIsExact(original, i, j);
      }
      assert blocks[i].items == revised[i].items;
    }
  }

  method ReviseAt(blocks: seq<Block>, ghost original: seq<Block>, ghost done: set<Text>, last: map<Text, Position>,
                  key: Text, values: map<Text, Text>, stamps: map<Text, Option<int>>)
    returns (revised: seq<Block>)
    requires last == Positions(original) && key in last && key !in done
    requires RevisedFor(blocks, original, done, values, stamps)
    ensures RevisedFor(revised, original, done + {key}, values, stamps)
  {
    TableEntry(original, key);
    var (i, j) := last[key];
    TableIsExact(original, i, j);
    revised := blocks[i := blocks[i].(items := blocks[i].items[j := Revised(blocks[i].items[j], values, stamps)])];
    forall p, q | 0 <= p < |revised| && 0 <= q < |revised[p].items|
      ensures revised[p].items[q] == if LastAt(original, p, q) && original[p].items[q].key in done + {key}
                                     then Revised(original[p].items[q], values, stamps) else original[p].items[q]
    {
      if LastAt(original, p, q) && original[p].items[q].key == key {
        TableIsExact(original, p, q);
      }
    }
  }

  lemma NothingRevised(blocks: seq<Block>, values: map<Text, Text>, stamps: map<Text, Option<int>>)
    ensures RevisedFor(blocks, blocks, {}, values, stamps)
  {
  }

  /** The next key of a sorted listing is a new one. */
  lemma NextKey(keys: seq<Text>, n: nat)
    requires n < |keys| && Increasing(keys)
    ensures keys[n] in Elements(keys) && keys[n] !in Elements(keys[..n])
    ensures Elements(keys[..n + 1]) == Elements(keys[..n]) + {keys[n]}
  {
    forall m | 0 <= m < n ensures keys[m] != keys[n] {
      LessAsymmetric(keys[m], keys[n]);
    }
    assert keys[..n + 1] == keys[..n] + [keys[n]];
  }

  /** Stamps the last occurrence of every key that has a unit. */
  method ApplyLastModified(blocks: seq<Block>, units: map<Text, Unit>) returns (stamped: seq<Block>)
    ensures stamped == WithStamps(blocks, units)
  {
    var last := LastPositions(blocks);
    TableKeys(blocks);
    var keys := SortTexts(last.Keys);
    stamped := blocks;
    ghost var done: set<Text> := {};
    assert Elements(keys[..0]) == done;
    hide RevisedFor, Positions, Increasing, Elements, ReviseLast, UnitStamps;
    NothingRevised(blocks, map[], UnitStamps(units));
    for n := 0 to |keys|
      invariant done == Elements(keys[..n])
      invariant RevisedFor(stamped, blocks, done, map[], UnitStamps(units))
    {
      var key := keys[n];
      NextKey(keys, n);
      stamped := ReviseAt(stamped, blocks, done, last, key, map[], UnitStamps(units));
      done := done + {key};
    }
    assert keys[..|keys|] == keys;
    RevisedForAll(stamped, blocks, done, map[], UnitStamps(units));
  }

  /** The loop that keeps, drops and re-anchors whole blocks. */
  method RetainInPlace(blocks: seq<Block>, keys: set<Text>) returns (r: Retention)
    ensures r == RetainBlocks(blocks, keys)
  {
    r := Retention([], [], []);
    for i := 0 to |blocks|
      invariant r == RetainBlocks(blocks[..i], keys)
    {
      assert blocks[..i + 1][..i] == blocks[..i];
      r := RetainBlock(r, blocks[i], keys);
    }
    assert blocks[..|blocks|] == blocks;
  }

  method RetainNodesInPlace(nodes: seq<Text>, occurrences: seq<bool>) returns (kept: seq<Text>)
    ensures kept == RetainNodes(nodes, occurrences)
  {
    kept := [];
    var occurrence := 0;
    for i := 0 to |nodes|
      invariant occurrence == Count(nodes[..i], CUSTOM_DATA)
      invariant kept == RetainNodes(nodes[..i], occurrences)
    {
      assert nodes[..i + 1][..i] == nodes[..i];
      if nodes[i] != CUSTOM_DATA {
        kept := kept + [nodes[i]];
      } else {
        if occurrence < |occurrences| ==> occurrences[occurrence] {
          kept := kept + [nodes[i]];
        }
        occurrence := occurrence + 1;
      }
    }
    assert nodes[..|nodes|] == nodes;
  }

  /** `absent` lists, in order, those of the first `n` keys that are not present. */
  ghost predicate ListsAbsent(absent: seq<Text>, keys: seq<Text>, n: nat, present: set<Text>)
    requires n <= |keys|
  {
    && Increasing(absent)
    && (forall x :: x in absent ==> x in keys[..n] && x !in present)
    && (forall m :: 0 <= m < n && keys[m] !in present ==> keys[m] in absent)
  }

  lemma AbsentPush(absent: seq<Text>, keys: seq<Text>, n: nat, present: set<Text>)
    requires n < |keys| && Increasing(keys) && ListsAbsent(absent, keys, n, present)
    requires keys[n] !in present
    ensures ListsAbsent(absent + [keys[n]], keys, n + 1, present)
  {
    assert keys[..n + 1] == keys[..n] + [keys[n]];
    forall i | 0 <= i < |absent| ensures Less(absent[i], keys[n]) {
      assert absent[i] in keys[..n];
      var m :| 0 <= m < n && keys[m] == absent[i];
    }
  }

  lemma AbsentIsSorted(absent: seq<Text>, keys: seq<Text>, present: set<Text>)
    requires ListsAbsent(absent, keys, |keys|, present)
    ensures absent == SortTexts(Elements(keys) - present)
  {
    assert Elements(absent) == Elements(keys) - present;
    SortTextsUnique(absent);
  }

  lemma NewItemsPush(keys: seq<Text>, key: Text, values: map<Text, Text>, stamps: map<Text, Option<int>>)
    requires key in values && forall k :: k in keys ==> k in values
    ensures NewItems(keys + [key], values, stamps)
         == NewItems(keys, values, stamps) + [Item(key, values[key], if key in stamps then stamps[key] else None)]
  {
  }

  lemma AbsentNeedsNoRevision(blocks: seq<Block>, original: seq<Block>, done: set<Text>, key: Text,
                              values: map<Text, Text>, stamps: map<Text, Option<int>>)
    requires RevisedFor(blocks, original, done, values, stamps) && key !in BlockKeys(original)
    ensures RevisedFor(blocks, original, done + {key}, values, stamps)
  {
    TableKeys(original);
    forall i, j | 0 <= i < |original| && 0 <= j < |original[i].items|
      ensures original[i].items[j].key != key
    {
      TableIsExact(original, i, j);
    }
  }

  /** The new items queued for the keys in `absent`. */
  ghost predicate Queued(missing: seq<Item>, absent: seq<Text>, values: map<Text, Text>, stamps: map<Text, Option<int>>) {
    (forall k :: k in absent ==> k in values) && missing == NewItems(absent, values, stamps)
  }

  /** One key of the write-back loop: revise its last item, or queue a new one. */
  method WriteValue(blocks: seq<Block>, missing: seq<Item>, original: seq<Block>, last: map<Text, Position>,
                    keys: seq<Text>, n: nat, merged: map<Text, Text>, stamps: map<Text, Option<int>>,
                    ghost absent: seq<Text>)
    returns (written: seq<Block>, queue: seq<Item>, ghost stillAbsent: seq<Text>)
    requires last == Positions(original) && n < |keys| && Increasing(keys) && keys[n] in merged
    requires ListsAbsent(absent, keys, n, BlockKeys(original))
    requires RevisedFor(blocks, original, Elements(keys[..n]), merged, stamps)
    requires Queued(missing, absent, merged, stamps)
    ensures RevisedFor(written, original, Elements(keys[..n + 1]), merged, stamps)
    ensures ListsAbsent(stillAbsent, keys, n + 1, BlockKeys(original))
    ensures Queued(queue, stillAbsent, merged, stamps)
  {
    TableKeys(original);
    NextKey(keys, n);
    assert keys[..n + 1] == keys[..n] + [keys[n]];
    if keys[n] in last {
      written := ReviseAt(blocks, original, Elements(keys[..n]), last, keys[n], merged, stamps);
      queue, stillAbsent := missing, absent;
    } else {
      written := blocks;
      queue := missing + [Item(keys[n], merged[keys[n]], if keys[n] in stamps then stamps[keys[n]] else None)];
      NewItemsPush(absent, keys[n], merged, stamps);
      AbsentPush(absent, keys, n, BlockKeys(original));
      AbsentNeedsNoRevision(blocks, original, Elements(keys[..n]), keys[n], merged, stamps);
      stillAbsent := absent + [keys[n]];
    }
  }

  /** Writes every value at its last position and collects the keys that have none. */
  method WriteValues(original: seq<Block>, merged: map<Text, Text>, stamps: map<Text, Option<int>>, keys: seq<Text>)
    returns (blocks: seq<Block>, missing: seq<Item>, ghost absent: seq<Text>)
    requires Increasing(keys) && forall k :: k in keys ==> k in merged
    ensures RevisedFor(blocks, original, Elements(keys), merged, stamps)
    ensures ListsAbsent(absent, keys, |keys|, BlockKeys(original))
    ensures Queued(missing, absent, merged, stamps)
  {
    var last := LastPositions(original);
    blocks, missing, absent := original, [], [];
    for n := 0 to |keys|
      invariant ListsAbsent(absent, keys, n, BlockKeys(original))
      invariant Queued(missing, absent, merged, stamps)
      invariant RevisedFor(blocks, original, Elements(keys[..n]), merged, stamps)
    {
      blocks, missing, absent := WriteValue(blocks, missing, original, last, keys, n, merged, stamps, absent);
    }
    assert keys[..|keys|] == keys;
  }

  method ReconcileBlocks(f: Fidelity, merged: map<Text, Text>, updated: Option<(Text, Option<int>)>)
    returns (result: Fidelity)
    ensures result == Reconciled(f, merged, updated)
  {
    var retained := RetainInPlace(f.blocks, merged.Keys);
    var opaqueXml := RetargetAll(f.opaqueXml, retained.anchors);
    var nodeOrder := RetainNodesInPlace(f.nodeOrder, retained.occurrences);
    var keys := SortTexts(merged.Keys);
    assert forall k :: k in keys ==> k in Elements(keys);
    var blocks, missing, absent := WriteValues(retained.blocks, merged, StampsOf(updated), keys);
    AbsentIsSorted(absent, keys, BlockKeys(retained.blocks));
    Finish(f, merged, updated, retained, blocks);
    result := Fidelity(AppendItems(blocks, missing), opaqueXml, nodeOrder);
  }

  lemma Finish(f: Fidelity, merged: map<Text, Text>, updated: Option<(Text, Option<int>)>, retained: Retention,
               blocks: seq<Block>)
    requires retained == RetainBlocks(f.blocks, merged.Keys)
    requires RevisedFor(blocks, retained.blocks, merged.Keys, merged, StampsOf(updated))
    ensures blocks == ReviseLast(retained.blocks, merged, StampsOf(updated))
    ensures BlockKeys(blocks) == BlockKeys(retained.blocks)
  {
    ViewRetained(f.blocks, merged.Keys);
    ViewKeys(retained.blocks);
    RevisedForStamps(blocks, retained.blocks, merged, StampsOf(updated));
    ViewRevised(retained.blocks, merged, StampsOf(updated));
    ViewKeys(blocks);
  }

  lemma RevisedForStamps(blocks: seq<Block>, original: seq<Block>, values: map<Text, Text>, stamps: map<Text, Option<int>>)
    requires RevisedFor(blocks, original, values.Keys, values, stamps) && BlockKeys(original) <= values.Keys
    ensures blocks == ReviseLast(original, values, stamps)
  {
    RevisedForAll(blocks, original, values.Keys, values, stamps);
  }
}
