/** Rebuilding a group tree from flat records, and why flattening and rebuilding are inverse. */
module Rebuild {
  import opened Wrappers
  import opened IdOrder
  import opened Model
  import opened Normalize
  import opened Forest
  import opened Tree
  import opened Siblings

  function ValuesOf<V>(m: Records<V>, ids: seq<Uuid>): seq<V>
    requires forall id :: id in ids ==> id in m
  {
    seq(|ids|, i requires 0 <= i < |ids| => m[ids[i]].value)
  }

  function EntriesUnder(entries: Records<Entry>, parent: Uuid): seq<Entry> {
    var ids := ChildList(entries, parent);
    assert forall id :: id in ids ==> id in Elements(ids);
    ValuesOf(entries, ids)
  }

  function RebuildTree(id: Uuid, groups: Records<Group>, entries: Records<Entry>, visiting: set<Uuid>)
    : Result<Group, PatchError>
    decreases groups.Keys - visiting, 1
  {
    if id in visiting then Failure(GroupCycle(id))
    else if id !in groups then Failure(MissingParent(id))
    else
      var children :- RebuildAll(ChildList(groups, id), groups, entries, visiting + {id});
      Success(NormalizeGroupSlots(groups[id].value.(children := children, entries := EntriesUnder(entries, id))))
  }

  function RebuildAll(ids: seq<Uuid>, groups: Records<Group>, entries: Records<Entry>, visiting: set<Uuid>)
    : Result<seq<Group>, PatchError>
    decreases groups.Keys - visiting, 2, ids
  {
    if ids == [] then Success([])
    else
      var first :- RebuildTree(ids[0], groups, entries, visiting);
      var rest :- RebuildAll(ids[1..], groups, entries, visiting);
      Success([first] + rest)
  }

  // ---- Shape: identifiers, parents and sibling order ----

  datatype Shape = Shape(id: Uuid, entries: seq<Uuid>, children: seq<Shape>)

  function ShapeOf(g: Group): Shape
    decreases g, 1
  {
    Shape(g.id, EntryIdList(g.entries), ShapesOf(g.children))
  }

  function ShapesOf(groups: seq<Group>): seq<Shape>
    decreases groups, 0
  {
    if groups == [] then [] else [ShapeOf(groups[0])] + ShapesOf(groups[1..])
  }

  /** Records are filed under their own identifiers. */
  ghost predicate Keyed(flat: FlatVault) {
    && (forall id :: id in flat.groups ==> flat.groups[id].value.id == id)
    && (forall id :: id in flat.entries ==> flat.entries[id].value.id == id)
  }

  lemma EntriesUnderIds(flat: FlatVault, parent: Uuid)
    requires Keyed(flat)
    ensures EntryIdList(EntriesUnder(flat.entries, parent)) == ChildList(flat.entries, parent)
  {
    var ids := ChildList(flat.entries, parent);
    assert forall i :: 0 <= i < |ids| ==> ids[i] in Elements(ids);
  }

  /** Rebuilding records whose sibling lists spell a tree gives a tree of that shape. */
  lemma {:induction false} RebuildFollowsMirror(flat: FlatVault, g: Group, visiting: set<Uuid>)
    requires Keyed(flat) && Mirrors(flat, g) && DistinctGroup(g)
    requires AllGroupIds(g) <= flat.groups.Keys && visiting !! AllGroupIds(g)
    ensures var r := RebuildTree(g.id, flat.groups, flat.entries, visiting);
      r.Success? && ShapeOf(r.value) == ShapeOf(g)
    decreases g, 1
  {
    RebuildFollowsMirrors(flat, g.children, visiting + {g.id});
    EntriesUnderIds(flat, g.id);
  }

  lemma {:induction false} RebuildFollowsMirrors(flat: FlatVault, groups: seq<Group>, visiting: set<Uuid>)
    requires Keyed(flat) && MirrorsAll(flat, groups) && DistinctGroups(groups)
    requires AllGroupIdsIn(groups) <= flat.groups.Keys && visiting !! AllGroupIdsIn(groups)
    ensures var r := RebuildAll(GroupIdList(groups), flat.groups, flat.entries, visiting);
      r.Success? && ShapesOf(r.value) == ShapesOf(groups)
    decreases groups, 0
  {
    hide RebuildTree, Mirrors, DistinctGroup, ShapeOf, AllGroupIds, Keyed;
    if groups != [] {
      RebuildFollowsMirror(flat, groups[0], visiting);
      RebuildFollowsMirrors(flat, groups[1..], visiting);
      assert GroupIdList(groups)[1..] == GroupIdList(groups[1..]);
    }
  }

  // ---- Well-formed flat vaults ----

  ghost predicate WellFormed(flat: FlatVault) {
    && Keyed(flat)
    && Rooted(flat.groups, flat.rootId)
    && flat.groups[flat.rootId].order == 0
    && (forall id :: id in flat.entries ==>
          flat.entries[id].parent.Some? && flat.entries[id].parent.value in flat.groups)
    && DenseOrders(flat.groups) && DenseOrders(flat.entries)
  }

  lemma {:induction false} HeldGroupReaches(flat: FlatVault, g: Group, parent: Option<Uuid>, order: nat)
    requires HoldsGroup(flat, g, parent, order)
    ensures forall id :: id in AllGroupIds(g) ==> IsBelow(flat.groups, id, g.id)
    decreases g, 1
  {
    BelowSelf(flat.groups, g.id);
    HeldChildrenReach(flat, g.children, 0, g.id);
  }

  lemma {:induction false} HeldChildrenReach(flat: FlatVault, children: seq<Group>, order: nat, parent: Uuid)
    requires HoldsChildren(flat, children, order, parent)
    ensures forall id :: id in AllGroupIdsIn(children) ==> IsBelow(flat.groups, id, parent)
    decreases children, 0
  {
    if children != [] {
      HeldGroupReaches(flat, children[0], Some(parent), order);
      HeldChildrenReach(flat, children[1..], order + 1, parent);
      BelowParent(flat.groups, children[0].id);
      forall id | id in AllGroupIds(children[0]) ensures IsBelow(flat.groups, id, parent) {
        BelowTransitive(flat.groups, id, children[0].id, parent);
      }
    }
  }

  ghost predicate KeyedOn(flat: FlatVault, groups: set<Uuid>, entries: set<Uuid>) {
    && (forall id :: id in groups ==> id in flat.groups && flat.groups[id].value.id == id)
    && (forall id :: id in entries ==> id in flat.entries && flat.entries[id].value.id == id)
  }

  lemma {:induction false} HeldEntriesKeyed(flat: FlatVault, entries: seq<Entry>, order: nat, parent: Uuid)
    requires HoldsEntries(flat, entries, order, parent)
    ensures KeyedOn(flat, {}, EntryIdsOf(entries))
  {
    if entries != [] {
      HeldEntriesKeyed(flat, entries[1..], order + 1, parent);
    }
  }

  lemma {:induction false} HeldGroupKeyed(flat: FlatVault, g: Group, parent: Option<Uuid>, order: nat)
    requires HoldsGroup(flat, g, parent, order)
    ensures KeyedOn(flat, AllGroupIds(g), AllEntryIds(g))
    decreases g, 1
  {
    HeldEntriesKeyed(flat, g.entries, 0, g.id);
    HeldChildrenKeyed(flat, g.children, 0, g.id);
  }

  lemma {:induction false} HeldChildrenKeyed(flat: FlatVault, children: seq<Group>, order: nat, parent: Uuid)
    requires HoldsChildren(flat, children, order, parent)
    ensures KeyedOn(flat, AllGroupIdsIn(children), AllEntryIdsIn(children))
    decreases children, 0
  {
    if children != [] {
      HeldGroupKeyed(flat, children[0], Some(parent), order);
      HeldChildrenKeyed(flat, children[1..], order + 1, parent);
    }
  }

  ghost predicate DenseAt<V>(m: Records<V>, p: Uuid) {
    forall i :: 0 <= i < |ChildList(m, p)| ==> ChildList(m, p)[i] in m && m[ChildList(m, p)[i]].order == i
  }

  lemma {:induction false} HeldGroupDense(flat: FlatVault, g: Group, parent: Option<Uuid>, order: nat)
    requires HoldsGroup(flat, g, parent, order) && Mirrors(flat, g)
    ensures forall p :: p in AllGroupIds(g) ==> DenseAt(flat.groups, p) && DenseAt(flat.entries, p)
    decreases g, 1
  {
    forall i | 0 <= i < |g.children| ensures g.children[i].id in flat.groups && flat.groups[g.children[i].id].order == i {
      HoldsChildAt(flat, g.children, 0, g.id, i);
    }
    assert DenseAt(flat.groups, g.id);
    forall i | 0 <= i < |g.entries| ensures g.entries[i].id in flat.entries && flat.entries[g.entries[i].id].order == i {
      HoldsEntryAt(flat, g.entries, 0, g.id, i);
    }
    assert DenseAt(flat.entries, g.id);
    HeldChildrenDense(flat, g.children, 0, g.id);
  }

  lemma {:induction false} HeldChildrenDense(flat: FlatVault, children: seq<Group>, order: nat, parent: Uuid)
    requires HoldsChildren(flat, children, order, parent) && MirrorsAll(flat, children)
    ensures forall p :: p in AllGroupIdsIn(children) ==> DenseAt(flat.groups, p) && DenseAt(flat.entries, p)
    decreases children, 0
  {
    if children != [] {
      HeldGroupDense(flat, children[0], Some(parent), order);
      HeldChildrenDense(flat, children[1..], order + 1, parent);
    }
  }

  /** Flattening a tree without duplicate identifiers gives a well-formed flat vault that mirrors it. */
  lemma FlattenedIsWellFormed(vault: Vault, side: Version)
    requires FlattenVault(vault, side).Success?
    ensures var flat := FlattenVault(vault, side).value;
      && WellFormed(flat) && Mirrors(flat, vault.root)
      && flat.rootId == vault.root.id
      && flat.groups.Keys == AllGroupIds(vault.root) && flat.entries.Keys == AllEntryIds(vault.root)
  {
    var flat := FlattenVault(vault, side).value;
    FlattenIsExact(vault, side);
    GroupHangs(flat, vault.root, None, 0);
    GroupMirrors(flat, vault.root, None, 0);
    HeldGroupReaches(flat, vault.root, None, 0);
    HeldGroupKeyed(flat, vault.root, None, 0);
    HeldGroupDense(flat, vault.root, None, 0);
    RootedIsLinked(flat.groups, flat.rootId);
    AllDense(flat.groups, flat.groups.Keys);
    AllDense(flat.entries, flat.groups.Keys);
  }

  lemma AllDense<V>(m: Records<V>, parents: set<Uuid>)
    requires forall p :: p in parents ==> DenseAt(m, p)
    requires forall id :: id in m && m[id].parent.Some? ==> m[id].parent.value in parents
    ensures DenseOrders(m)
  {
    forall p, i | 0 <= i < |ChildList(m, p)|
      ensures ChildList(m, p)[i] in m && m[ChildList(m, p)[i]].order == i
    {
      InChildList(m, p, ChildList(m, p)[i]);
      assert DenseAt(m, p);
    }
  }

  /** Rebuilding what flattening recorded restores the tree's shape. */
  lemma RebuildOfFlatten(vault: Vault, side: Version)
    requires FlattenVault(vault, side).Success?
    ensures var flat := FlattenVault(vault, side).value;
      var r := RebuildTree(flat.rootId, flat.groups, flat.entries, {});
      r.Success? && ShapeOf(r.value) == ShapeOf(vault.root)
  {
    FlattenedIsWellFormed(vault, side);
    FlattenIsExact(vault, side);
    RebuildFollowsMirror(FlattenVault(vault, side).value, vault.root, {});
  }

  // ---- Flattening what was rebuilt ----

  /** The same group, except that its fidelity slots may have been dropped. */
  ghost predicate SameButSlots(a: Group, b: Group) {
    a == b.(rawState := a.rawState, opaqueXml := a.opaqueXml, customDataBlocks := a.customDataBlocks)
  }

  /** Every node of `g` is the record of its identifier with the listed children and entries. */
  ghost predicate Rebuilt(flat: FlatVault, g: Group)
    decreases g, 1
  {
    && g.id in flat.groups
    && SameButSlots(Shell(g), Shell(flat.groups[g.id].value))
    && GroupIdList(g.children) == ChildList(flat.groups, g.id)
    && g.entries == EntriesUnder(flat.entries, g.id)
    && RebuiltAll(flat, g.children)
  }

  ghost predicate RebuiltAll(flat: FlatVault, groups: seq<Group>)
    decreases groups, 0
  {
    groups == [] || (Rebuilt(flat, groups[0]) && RebuiltAll(flat, groups[1..]))
  }

  lemma {:induction false} RebuildTreeIsRebuilt(flat: FlatVault, id: Uuid, visiting: set<Uuid>)
    requires Keyed(flat) && RebuildTree(id, flat.groups, flat.entries, visiting).Success?
    ensures var g := RebuildTree(id, flat.groups, flat.entries, visiting).value;
      g.id == id && Rebuilt(flat, g)
    decreases flat.groups.Keys - visiting, 1
  {
    RebuildAllIsRebuilt(flat, ChildList(flat.groups, id), visiting + {id});
  }

  lemma {:induction false} RebuildAllIsRebuilt(flat: FlatVault, ids: seq<Uuid>, visiting: set<Uuid>)
    requires Keyed(flat) && RebuildAll(ids, flat.groups, flat.entries, visiting).Success?
    ensures var groups := RebuildAll(ids, flat.groups, flat.entries, visiting).value;
      GroupIdList(groups) == ids && RebuiltAll(flat, groups)
    decreases flat.groups.Keys - visiting, 2, ids
  {
    hide RebuildTree, Rebuilt, Keyed;
    if ids != [] {
      RebuildTreeIsRebuilt(flat, ids[0], visiting);
      RebuildAllIsRebuilt(flat, ids[1..], visiting);
    }
  }

  /** A rooted hierarchy can be rebuilt: no record is met while its own subtree is being built. */
  lemma {:induction false} RebuildSucceeds(flat: FlatVault, id: Uuid, visiting: set<Uuid>)
    requires Rooted(flat.groups, flat.rootId) && id in flat.groups
    requires forall v :: v in visiting ==>
      v in flat.groups && Depth(flat.groups, flat.rootId, v) < Depth(flat.groups, flat.rootId, id)
    ensures RebuildTree(id, flat.groups, flat.entries, visiting).Success?
    decreases flat.groups.Keys - visiting, 1
  {
    var ids := ChildList(flat.groups, id);
    forall c | c in ids
      ensures c in flat.groups
        && Depth(flat.groups, flat.rootId, c) == Depth(flat.groups, flat.rootId, id) + 1
    {
      InChildList(flat.groups, id, c);
      DepthOfChild(flat.groups, flat.rootId, c);
    }
    RebuildAllSucceeds(flat, ids, visiting + {id});
  }

  lemma {:induction false} RebuildAllSucceeds(flat: FlatVault, ids: seq<Uuid>, visiting: set<Uuid>)
    requires Rooted(flat.groups, flat.rootId)
    requires forall v, c :: v in visiting && c in ids ==>
      && v in flat.groups && c in flat.groups
      && Depth(flat.groups, flat.rootId, v) < Depth(flat.groups, flat.rootId, c)
    requires forall c :: c in ids ==> c in flat.groups
    ensures RebuildAll(ids, flat.groups, flat.entries, visiting).Success?
    decreases flat.groups.Keys - visiting, 2, ids
  {
    if ids != [] {
      RebuildSucceeds(flat, ids[0], visiting);
      RebuildAllSucceeds(flat, ids[1..], visiting);
    }
  }
}
