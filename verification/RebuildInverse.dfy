/** Flattening a rebuilt tree gives back the records it was rebuilt from. */
module RebuildInverse {
  import opened Wrappers
  import opened IdOrder
  import opened Model
  import opened Forest
  import opened Tree
  import opened Siblings
  import opened SiblingOrder
  import opened Rebuild

  /** Two records at one depth cannot both lie above a third unless they are the same. */
  lemma BelowOneAtDepth<V>(m: Records<V>, root: Uuid, id: Uuid, a: Uuid, b: Uuid)
    requires Rooted(m, root) && id in m && a in m && b in m
    requires IsBelow(m, id, a) && IsBelow(m, id, b) && Depth(m, root, a) == Depth(m, root, b)
    ensures a == b
  {
    DepthAbove(m, root, id, a);
    DepthAbove(m, root, id, b);
  }

  lemma DepthAbove<V>(m: Records<V>, root: Uuid, id: Uuid, a: Uuid)
    requires Rooted(m, root) && id in m && a in m && IsBelow(m, id, a)
    ensures Depth(m, root, a) <= Depth(m, root, id)
    ensures Ancestor(m, id, Depth(m, root, id) - Depth(m, root, a)) == Some(a)
  {
    var n :| 0 <= n <= |m| && Ancestor(m, id, n) == Some(a);
    AncestorSplit(m, id, n, Depth(m, root, a));
    DepthUnique(m, root, id, Depth(m, root, id), n + Depth(m, root, a));
  }

  // ---- A rebuilt tree uses no identifier twice ----

  ghost predicate AllBelow(flat: FlatVault, ids: set<Uuid>, ancestor: Uuid) {
    forall id :: id in ids ==> id in flat.groups && IsBelow(flat.groups, id, ancestor)
  }

  ghost predicate EntriesHangIn(flat: FlatVault, entries: set<Uuid>, groups: set<Uuid>) {
    forall id :: id in entries ==>
      id in flat.entries && flat.entries[id].parent.Some? && flat.entries[id].parent.value in groups
  }

  lemma {:induction false} EntryIdsOfList(entries: seq<Entry>)
    ensures EntryIdsOf(entries) == Elements(EntryIdList(entries))
    ensures DistinctEntries(entries) <==> Distinct(EntryIdList(entries))
  {
    if entries != [] {
      var q, rest := EntryIdList(entries), EntryIdList(entries[1..]);
      EntryIdsOfList(entries[1..]);
      assert q == [entries[0].id] + rest;
      hide Distinct;
      DistinctTail(q);
      assert q[1..] == rest;
      assert forall x :: x in q <==> x == entries[0].id || x in rest;
    }
  }

  lemma RebuiltEntries(flat: FlatVault, g: Group)
    requires Keyed(flat) && g.id in flat.groups && g.entries == EntriesUnder(flat.entries, g.id)
    ensures EntryIdList(g.entries) == ChildList(flat.entries, g.id)
    ensures DistinctEntries(g.entries)
    ensures EntriesHangIn(flat, EntryIdsOf(g.entries), {g.id})
  {
    EntriesUnderIds(flat, g.id);
    EntryIdsOfList(g.entries);
    IncreasingIsDistinct(ChildList(flat.entries, g.id), Ranks(flat.entries));
  }

  lemma {:induction false} RebuiltBelow(flat: FlatVault, g: Group)
    requires Keyed(flat) && Rebuilt(flat, g)
    ensures AllBelow(flat, AllGroupIds(g), g.id)
    ensures EntriesHangIn(flat, AllEntryIds(g), AllGroupIds(g))
    decreases g, 1
  {
    BelowSelf(flat.groups, g.id);
    RebuiltEntries(flat, g);
    forall i | 0 <= i < |g.children| ensures IsChild(flat, g.children[i].id, g.id) {
      InChildList(flat.groups, g.id, GroupIdList(g.children)[i]);
    }
    RebuiltAllBelow(flat, g.children, g.id);
  }

  ghost predicate IsChild(flat: FlatVault, id: Uuid, parent: Uuid) {
    id in flat.groups && flat.groups[id].parent == Some(parent)
  }

  lemma {:induction false} RebuiltAllBelow(flat: FlatVault, groups: seq<Group>, parent: Uuid)
    requires Keyed(flat) && RebuiltAll(flat, groups)
    requires forall i :: 0 <= i < |groups| ==> IsChild(flat, groups[i].id, parent)
    ensures AllBelow(flat, AllGroupIdsIn(groups), parent)
    ensures EntriesHangIn(flat, AllEntryIdsIn(groups), AllGroupIdsIn(groups))
    decreases groups, 0
  {
    if groups != [] {
      RebuiltBelow(flat, groups[0]);
      RebuiltAllBelow(flat, groups[1..], parent);
      BelowParent(flat.groups, groups[0].id);
      forall id | id in AllGroupIds(groups[0]) ensures IsBelow(flat.groups, id, parent) {
        BelowTransitive(flat.groups, id, groups[0].id, parent);
      }
    }
  }

  lemma {:induction false} InSomeTree(flat: FlatVault, groups: seq<Group>, id: Uuid) returns (i: nat)
    requires Keyed(flat) && RebuiltAll(flat, groups) && id in AllGroupIdsIn(groups)
    ensures i < |groups| && id in AllGroupIds(groups[i]) && IsBelow(flat.groups, id, groups[i].id) && id in flat.groups
  {
    if id in AllGroupIds(groups[0]) {
      i := 0;
      RebuiltBelow(flat, groups[0]);
    } else {
      var j := InSomeTree(flat, groups[1..], id);
      i := j + 1;
    }
  }

  lemma {:induction false} RebuiltIsDistinct(flat: FlatVault, g: Group)
    requires Keyed(flat) && Rooted(flat.groups, flat.rootId) && Rebuilt(flat, g)
    ensures DistinctGroup(g)
    decreases g, 1
  {
    RebuiltEntries(flat, g);
    forall i | 0 <= i < |g.children| ensures IsChild(flat, g.children[i].id, g.id) {
      InChildList(flat.groups, g.id, GroupIdList(g.children)[i]);
    }
    IncreasingIsDistinct(ChildList(flat.groups, g.id), Ranks(flat.groups));
    RebuiltAllBelow(flat, g.children, g.id);
    if g.id in AllGroupIdsIn(g.children) {
      var i := InSomeTree(flat, g.children, g.id);
      DepthAbove(flat.groups, flat.rootId, g.id, g.children[i].id);
      DepthOfChild(flat.groups, flat.rootId, g.children[i].id);
      assert false;
    }
    RebuiltAllDistinct(flat, g.children, g.id);
  }

  lemma {:induction false} RebuiltAllDistinct(flat: FlatVault, groups: seq<Group>, parent: Uuid)
    requires Keyed(flat) && Rooted(flat.groups, flat.rootId) && RebuiltAll(flat, groups)
    requires forall i :: 0 <= i < |groups| ==> IsChild(flat, groups[i].id, parent)
    requires Distinct(GroupIdList(groups))
    ensures DistinctGroups(groups)
    decreases groups, 0
  {
    if groups != [] {
      var rest := groups[1..];
      assert forall i :: 0 <= i < |rest| ==> GroupIdList(rest)[i] == GroupIdList(groups)[i + 1];
      forall i | 0 <= i < |rest| ensures rest[i].id != groups[0].id && IsChild(flat, rest[i].id, parent) {
        assert GroupIdList(groups)[0] != GroupIdList(groups)[i + 1];
        assert rest[i] == groups[i + 1];
      }
      assert Rebuilt(flat, groups[0]) && RebuiltAll(flat, rest);
      hide RebuiltAll, Distinct, Keyed, Rooted, Rebuilt, DistinctGroup, AllGroupIds, AllEntryIds, AllBelow, IsBelow;
      RebuiltIsDistinct(flat, groups[0]);
      RebuiltAllDistinct(flat, rest, parent);
      RebuiltBelow(flat, groups[0]);
      RebuiltAllBelow(flat, rest, parent);
      forall id | id in AllGroupIds(groups[0]) ensures id !in AllGroupIdsIn(rest) {
        ApartFromRest(flat, groups[0], rest, parent, id);
      }
      EntriesApart(flat, AllEntryIds(groups[0]), AllGroupIds(groups[0]), AllEntryIdsIn(rest), AllGroupIdsIn(rest));
    }
  }

  lemma EntriesApart(flat: FlatVault, a: set<Uuid>, aGroups: set<Uuid>, b: set<Uuid>, bGroups: set<Uuid>)
    requires EntriesHangIn(flat, a, aGroups) && EntriesHangIn(flat, b, bGroups) && aGroups !! bGroups
    ensures a !! b
  {
  }

  /** No group lies in the trees of two siblings. */
  lemma ApartFromRest(flat: FlatVault, first: Group, rest: seq<Group>, parent: Uuid, id: Uuid)
    requires Keyed(flat) && Rooted(flat.groups, flat.rootId) && Rebuilt(flat, first) && RebuiltAll(flat, rest)
    requires IsChild(flat, first.id, parent) && forall i :: 0 <= i < |rest| ==> IsChild(flat, rest[i].id, parent)
    requires forall i :: 0 <= i < |rest| ==> rest[i].id != first.id
    requires id in AllGroupIds(first)
    ensures id !in AllGroupIdsIn(rest)
  {
    hide Keyed, Rooted, Rebuilt, RebuiltAll;
    if id in AllGroupIdsIn(rest) {
      var i := InSomeTree(flat, rest, id);
      RebuiltBelow(flat, first);
      DepthOfChild(flat.groups, flat.rootId, first.id);
      DepthOfChild(flat.groups, flat.rootId, rest[i].id);
      BelowOneAtDepth(flat.groups, flat.rootId, id, first.id, rest[i].id);
    }
  }

  // ---- It uses every identifier ----

  lemma {:induction false} ChildStaysInside(flat: FlatVault, g: Group, id: Uuid)
    requires Keyed(flat) && Rebuilt(flat, g)
    ensures id in flat.groups && flat.groups[id].parent.Some? && flat.groups[id].parent.value in AllGroupIds(g)
      ==> id in AllGroupIds(g)
    ensures id in flat.entries && flat.entries[id].parent.Some? && flat.entries[id].parent.value in AllGroupIds(g)
      ==> id in AllEntryIds(g)
    decreases g, 1
  {
    InChildList(flat.groups, g.id, id);
    InChildList(flat.entries, g.id, id);
    RebuiltEntries(flat, g);
    EntryIdsOfList(g.entries);
    if i :| 0 <= i < |g.children| && GroupIdList(g.children)[i] == id {
      RootInside(g.children, i);
    }
    ChildStaysInsideAll(flat, g.children, id);
  }

  lemma {:induction false} RootInside(groups: seq<Group>, i: nat)
    requires i < |groups|
    ensures groups[i].id in AllGroupIdsIn(groups)
  {
    if i > 0 {
      RootInside(groups[1..], i - 1);
    }
  }

  lemma {:induction false} ChildStaysInsideAll(flat: FlatVault, groups: seq<Group>, id: Uuid)
    requires Keyed(flat) && RebuiltAll(flat, groups)
    ensures id in flat.groups && flat.groups[id].parent.Some? && flat.groups[id].parent.value in AllGroupIdsIn(groups)
      ==> id in AllGroupIdsIn(groups)
    ensures id in flat.entries && flat.entries[id].parent.Some? && flat.entries[id].parent.value in AllGroupIdsIn(groups)
      ==> id in AllEntryIdsIn(groups)
    decreases groups, 0
  {
    if groups != [] {
      ChildStaysInside(flat, groups[0], id);
      ChildStaysInsideAll(flat, groups[1..], id);
    }
  }

  lemma {:induction false} EveryGroupInside(flat: FlatVault, g: Group, id: Uuid)
    requires Keyed(flat) && Rooted(flat.groups, flat.rootId) && Rebuilt(flat, g) && g.id == flat.rootId
    requires id in flat.groups
    ensures id in AllGroupIds(g)
    decreases Depth(flat.groups, flat.rootId, id)
  {
    if id != g.id {
      RootedIsLinked(flat.groups, flat.rootId);
      DepthOfChild(flat.groups, flat.rootId, id);
      EveryGroupInside(flat, g, flat.groups[id].parent.value);
      ChildStaysInside(flat, g, id);
    }
  }

  // ---- Its records are the ones it was rebuilt from ----

  /** Same identifiers, parents and positions; entries equal; groups equal up to fidelity slots. */
  ghost predicate SameRecords(a: FlatVault, b: FlatVault, groups: set<Uuid>, entries: set<Uuid>) {
    && (forall id :: id in groups ==> id in a.groups && id in b.groups && SameGroupRecord(a.groups[id], b.groups[id]))
    && (forall id :: id in entries ==> id in a.entries && id in b.entries && a.entries[id] == b.entries[id])
  }

  ghost predicate SameGroupRecord(a: Flat<Group>, b: Flat<Group>) {
    a.parent == b.parent && a.order == b.order && SameButSlots(Shell(a.value), Shell(b.value))
  }

  lemma {:induction false} SameEntryRecords(flat: FlatVault, again: FlatVault, entries: seq<Entry>, order: nat, parent: Uuid)
    requires HoldsEntries(again, entries, order, parent)
    requires forall i :: 0 <= i < |entries| ==>
      entries[i].id in flat.entries && flat.entries[entries[i].id] == Flat(entries[i], Some(parent), order + i)
    ensures SameRecords(again, flat, {}, EntryIdsOf(entries))
  {
    if entries != [] {
      forall i | 0 <= i < |entries[1..]|
        ensures entries[1..][i].id in flat.entries
          && flat.entries[entries[1..][i].id] == Flat(entries[1..][i], Some(parent), order + 1 + i)
      {
        assert entries[1..][i] == entries[i + 1];
      }
      SameEntryRecords(flat, again, entries[1..], order + 1, parent);
    }
  }

  lemma SameOwnEntries(flat: FlatVault, again: FlatVault, g: Group)
    requires WellFormed(flat) && Rebuilt(flat, g) && HoldsEntries(again, g.entries, 0, g.id)
    ensures SameRecords(again, flat, {}, EntryIdsOf(g.entries))
  {
    var ids := ChildList(flat.entries, g.id);
    RebuiltEntries(flat, g);
    hide DenseOrders, Rooted, Rebuilt, EntriesUnder;
    forall i | 0 <= i < |g.entries|
      ensures g.entries[i].id in flat.entries && flat.entries[g.entries[i].id] == Flat(g.entries[i], Some(g.id), 0 + i)
    {
      assert EntryIdList(g.entries)[i] == ids[i];
      InChildList(flat.entries, g.id, ids[i]);
    }
    SameEntryRecords(flat, again, g.entries, 0, g.id);
  }

  lemma {:induction false} SameTreeRecords(flat: FlatVault, again: FlatVault, g: Group, parent: Option<Uuid>, order: nat)
    requires WellFormed(flat) && Rebuilt(flat, g) && HoldsGroup(again, g, parent, order)
    requires flat.groups[g.id].parent == parent && flat.groups[g.id].order == order
    ensures SameRecords(again, flat, AllGroupIds(g), AllEntryIds(g))
    decreases g, 1
  {
    SameOwnEntries(flat, again, g);
    forall i | 0 <= i < |g.children|
      ensures IsChild(flat, g.children[i].id, g.id) && flat.groups[g.children[i].id].order == 0 + i
    {
      assert GroupIdList(g.children)[i] == ChildList(flat.groups, g.id)[i];
      InChildList(flat.groups, g.id, g.children[i].id);
    }
    SameTreesRecords(flat, again, g.children, 0, g.id);
  }

  lemma {:induction false} SameTreesRecords(flat: FlatVault, again: FlatVault, groups: seq<Group>, order: nat, parent: Uuid)
    requires WellFormed(flat) && RebuiltAll(flat, groups) && HoldsChildren(again, groups, order, parent)
    requires forall i :: 0 <= i < |groups| ==>
      IsChild(flat, groups[i].id, parent) && flat.groups[groups[i].id].order == order + i
    ensures SameRecords(again, flat, AllGroupIdsIn(groups), AllEntryIdsIn(groups))
    decreases groups, 0
  {
    if groups != [] {
      SameTreeRecords(flat, again, groups[0], Some(parent), order);
      forall i | 0 <= i < |groups[1..]|
        ensures IsChild(flat, groups[1..][i].id, parent) && flat.groups[groups[1..][i].id].order == order + 1 + i
      {
        assert groups[1..][i] == groups[i + 1];
      }
      SameTreesRecords(flat, again, groups[1..], order + 1, parent);
    }
  }

  lemma RebuiltCoversAll(flat: FlatVault, t: Group)
    requires WellFormed(flat) && Rebuilt(flat, t) && t.id == flat.rootId
    ensures AllGroupIds(t) == flat.groups.Keys && AllEntryIds(t) == flat.entries.Keys
  {
    RebuiltBelow(flat, t);
    forall id | id in flat.groups ensures id in AllGroupIds(t) {
      EveryGroupInside(flat, t, id);
    }
    forall id | id in flat.entries ensures id in AllEntryIds(t) {
      ChildStaysInside(flat, t, id);
    }
  }

  /** Rebuilding well-formed records succeeds and places every record exactly once. */
  lemma RebuildPlacesAll(flat: FlatVault)
    requires WellFormed(flat)
    ensures var t := RebuildTree(flat.rootId, flat.groups, flat.entries, {});
      && t.Success? && t.value.id == flat.rootId && Rebuilt(flat, t.value) && DistinctGroup(t.value)
      && AllGroupIds(t.value) == flat.groups.Keys && AllEntryIds(t.value) == flat.entries.Keys
  {
    RebuildSucceeds(flat, flat.rootId, {});
    var t := RebuildTree(flat.rootId, flat.groups, flat.entries, {}).value;
    RebuildTreeIsRebuilt(flat, flat.rootId, {});
    RebuiltIsDistinct(flat, t);
    RebuiltCoversAll(flat, t);
  }

  /**
    Flattening the rebuilt tree gives the same identifiers, parents and
    positions back, with every entry and, up to fidelity slots, every group
    unchanged.
   */
  lemma FlattenOfRebuild(flat: FlatVault, vault: Vault, side: Version)
    requires WellFormed(flat)
    requires RebuildTree(flat.rootId, flat.groups, flat.entries, {}) == Success(vault.root)
    ensures var again := FlattenVault(vault, side);
      && again.Success?
      && again.value.rootId == flat.rootId
      && again.value.groups.Keys == flat.groups.Keys && again.value.entries.Keys == flat.entries.Keys
      && SameRecords(again.value, flat, flat.groups.Keys, flat.entries.Keys)
  {
    RebuildPlacesAll(flat);
    FlattenIsExact(vault, side);
    SameTreeRecords(flat, FlattenVault(vault, side).value, vault.root, None, 0);
  }
}
