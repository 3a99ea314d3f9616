/** The fidelity slots of the groups a successful patch returns. */
module GroupSlots {
  import opened Wrappers
  import opened IdOrder
  import opened Model
  import opened Forest
  import opened Tree
  import opened Siblings
  import opened Rebuild
  import opened RebuildInverse
  import opened Normalize
  import opened RecordSlots

  // ---- Rebuilding drops stale slots, and only those ----

  /** A node of the tree is its record with the slots of its children. */
  ghost predicate SlotsDropped(before: Group, g: Group) {
    && GroupSlotsKept(before.rawState, g.rawState, EntryIds(g.entries), GroupIds(g.children))
    && GroupAnchorsKept(before.rawState, g.rawState, EntryIds(g.entries), GroupIds(g.children),
                        before.opaqueXml, g.opaqueXml, before.customDataBlocks, g.customDataBlocks)
  }

  ghost predicate AllDropped(flat: FlatVault, g: Group)
    decreases g, 1
  {
    g.id in flat.groups && SlotsDropped(flat.groups[g.id].value, g) && AllDroppedIn(flat, g.children)
  }

  ghost predicate AllDroppedIn(flat: FlatVault, groups: seq<Group>)
    decreases groups, 0
  {
    groups == [] || (AllDropped(flat, groups[0]) && AllDroppedIn(flat, groups[1..]))
  }

  lemma {:induction false} RebuiltTreeDrops(flat: FlatVault, id: Uuid, visiting: set<Uuid>)
    requires Keyed(flat) && RebuildTree(id, flat.groups, flat.entries, visiting).Success?
    ensures AllDropped(flat, RebuildTree(id, flat.groups, flat.entries, visiting).value)
    decreases flat.groups.Keys - visiting, 1
  {
    hide SlotsDropped, GroupSlotsKept, GroupAnchorsKept, NormalizeGroupSlots, SameXml, SameBlocks;
    RebuiltAllDrop(flat, ChildList(flat.groups, id), visiting + {id});
    var children := RebuildAll(ChildList(flat.groups, id), flat.groups, flat.entries, visiting + {id}).value;
    var g := flat.groups[id].value.(children := children, entries := EntriesUnder(flat.entries, id));
    NormalizedGroup(g);
    DroppedFrom(flat.groups[id].value, g, NormalizeGroupSlots(g));
  }

  lemma DroppedFrom(before: Group, g: Group, n: Group)
    requires g == before.(children := g.children, entries := g.entries)
    requires GroupSlotsKept(g.rawState, n.rawState, EntryIds(g.entries), GroupIds(g.children))
    requires GroupAnchorsKept(g.rawState, n.rawState, EntryIds(g.entries), GroupIds(g.children),
                              g.opaqueXml, n.opaqueXml, g.customDataBlocks, n.customDataBlocks)
    requires n == g.(rawState := n.rawState, opaqueXml := n.opaqueXml, customDataBlocks := n.customDataBlocks)
    ensures SlotsDropped(before, n)
  {
    hide GroupSlotsKept, GroupAnchorsKept;
  }

  lemma {:induction false} RebuiltAllDrop(flat: FlatVault, ids: seq<Uuid>, visiting: set<Uuid>)
    requires Keyed(flat) && RebuildAll(ids, flat.groups, flat.entries, visiting).Success?
    ensures AllDroppedIn(flat, RebuildAll(ids, flat.groups, flat.entries, visiting).value)
    decreases flat.groups.Keys - visiting, 2, ids
  {
    hide RebuildTree, AllDropped, Keyed;
    if ids != [] {
      RebuiltTreeDrops(flat, ids[0], visiting);
      RebuiltAllDrop(flat, ids[1..], visiting);
    }
  }

  // ---- What flattening the tree again finds ----

  /** The records under a group. */
  ghost function HeldBy<V>(records: Records<V>, id: Uuid): set<Uuid> {
    set c | c in records && records[c].parent == Some(id)
  }

  ghost predicate SlotsHeld(flat: FlatVault, again: FlatVault, id: Uuid) {
    && id in flat.groups && id in again.groups
    && var before, after := flat.groups[id].value, again.groups[id].value;
       && GroupSlotsKept(before.rawState, after.rawState, HeldBy(flat.entries, id), HeldBy(flat.groups, id))
       && GroupAnchorsKept(before.rawState, after.rawState, HeldBy(flat.entries, id), HeldBy(flat.groups, id),
                           before.opaqueXml, after.opaqueXml, before.customDataBlocks, after.customDataBlocks)
  }

  lemma EntriesAreUnder(flat: FlatVault, g: Group)
    requires EntryIdList(g.entries) == ChildList(flat.entries, g.id)
    ensures EntryIds(g.entries) == HeldBy(flat.entries, g.id)
  {
    hide ChildList;
    forall id ensures id in EntryIds(g.entries) <==> id in HeldBy(flat.entries, g.id) {
      InChildList(flat.entries, g.id, id);
      IdListed(g.entries, id);
    }
  }

  lemma IdListed(entries: seq<Entry>, id: Uuid)
    ensures id in EntryIds(entries) <==> id in EntryIdList(entries)
  {
    if e :| e in entries && e.id == id {
      var i :| 0 <= i < |entries| && entries[i] == e;
      assert EntryIdList(entries)[i] == id;
    }
  }

  lemma GroupsAreUnder(flat: FlatVault, g: Group)
    requires GroupIdList(g.children) == ChildList(flat.groups, g.id)
    ensures GroupIds(g.children) == HeldBy(flat.groups, g.id)
  {
    hide ChildList;
    forall id ensures id in GroupIds(g.children) <==> id in HeldBy(flat.groups, g.id) {
      InChildList(flat.groups, g.id, id);
      GroupIdListed(g.children, id);
    }
  }

  lemma GroupIdListed(groups: seq<Group>, id: Uuid)
    ensures id in GroupIds(groups) <==> id in GroupIdList(groups)
  {
    if g :| g in groups && g.id == id {
      var i :| 0 <= i < |groups| && groups[i] == g;
      assert GroupIdList(groups)[i] == id;
    }
  }

  lemma ChildrenAreUnder(flat: FlatVault, g: Group)
    requires Keyed(flat) && Rebuilt(flat, g)
    ensures EntryIds(g.entries) == HeldBy(flat.entries, g.id) && GroupIds(g.children) == HeldBy(flat.groups, g.id)
  {
    RebuiltEntries(flat, g);
    hide ChildList, EntryIds, GroupIds;
    EntriesAreUnder(flat, g);
    GroupsAreUnder(flat, g);
  }

  lemma {:induction false} TreeHoldsSlots(flat: FlatVault, again: FlatVault, g: Group, parent: Option<Uuid>, order: nat)
    requires Keyed(flat) && Rebuilt(flat, g) && AllDropped(flat, g) && HoldsGroup(again, g, parent, order)
    ensures forall id :: id in AllGroupIds(g) ==> SlotsHeld(flat, again, id)
    decreases g, 1
  {
    hide GroupSlotsKept, GroupAnchorsKept;
    ChildrenAreUnder(flat, g);
    assert SlotsHeld(flat, again, g.id);
    TreesHoldSlots(flat, again, g.children, 0, g.id);
    hide SlotsHeld, Rebuilt, AllDropped, HoldsGroup;
  }

  lemma {:induction false} TreesHoldSlots(flat: FlatVault, again: FlatVault, groups: seq<Group>, order: nat, parent: Uuid)
    requires Keyed(flat) && RebuiltAll(flat, groups) && AllDroppedIn(flat, groups) && HoldsChildren(again, groups, order, parent)
    ensures forall id :: id in AllGroupIdsIn(groups) ==> SlotsHeld(flat, again, id)
    decreases groups, 0
  {
    hide SlotsHeld, Rebuilt, AllDropped, HoldsGroup, Keyed;
    if groups != [] {
      TreeHoldsSlots(flat, again, groups[0], Some(parent), order);
      TreesHoldSlots(flat, again, groups[1..], order + 1, parent);
    }
  }

  /** Flattening a rebuilt vault gives every group's record with the slots of its children. */
  lemma FlattenHoldsSlots(flat: FlatVault, vault: Vault, side: Version)
    requires WellFormed(flat)
    requires RebuildTree(flat.rootId, flat.groups, flat.entries, {}) == Success(vault.root)
    ensures FlattenVault(vault, side).Success?
    ensures forall id :: id in flat.groups ==> SlotsHeld(flat, FlattenVault(vault, side).value, id)
  {
    hide SlotsHeld, AllDropped, Rebuilt, HoldsGroup, RebuildTree;
    FlattenOfRebuild(flat, vault, side);
    RebuildPlacesAll(flat);
    FlattenIsExact(vault, side);
    RebuildTreeIsRebuilt(flat, flat.rootId, {});
    RebuiltTreeDrops(flat, flat.rootId, {});
    RebuiltCoversAll(flat, vault.root);
    TreeHoldsSlots(flat, FlattenVault(vault, side).value, vault.root, None, 0);
  }
}
