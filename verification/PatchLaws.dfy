/** The laws of the patch: a patch against itself, of nothing, and onto an unchanged remote. */
module PatchLaws {
  import opened Wrappers
  import opened IdOrder
  import opened Model
  import opened FieldMerge
  import opened Forest
  import opened Tree
  import opened Siblings
  import opened SiblingOrder
  import opened Rebuild
  import opened SiblingMerge
  import opened GroupHierarchy
  import opened EntryMerge
  import opened EntrySurvival
  import opened MetaMerge
  import opened PatchRecords
  import opened RecordLaws
  import opened ThreeWayPatch
  import opened PatchTheorems
  import GM = GroupMerge
  import CD = CustomData

  // ---- Records ordered like a target ----

  /** Every sibling list is the target's. */
  ghost predicate SameLists<V>(m: Records<V>, target: Records<V>) {
    forall p :: ChildList(m, p) == ChildList(target, p)
  }

  lemma ChildlessListsAgree<V>(a: Records<V>, b: Records<V>, p: Uuid)
    requires PlacedLike(a, b) && p !in ParentsOf(a)
    ensures ChildList(a, p) == ChildList(b, p)
  {
    assert ChildIds(a, p) == {} && ChildIds(b, p) == {} by {
      forall id | id in a ensures a[id].parent != Some(p) && b[id].parent != Some(p) {
        assert a[id].parent.Some? ==> a[id].parent.value in ParentsOf(a);
      }
    }
  }

  /** Merged records whose every order is the target's are reconciled to the target's lists. */
  lemma ReconciledLike<V>(s: Sides<V>, merged: Records<V>, target: Records<V>)
    requires PlacedLike(merged, target)
    requires forall p :: MergedOrder(s, merged, p) == Success(ChildList(target, p))
    ensures Reconciled(s, merged).Success?
    ensures SamePlaces(Reconciled(s, merged).value, merged) && SameLists(Reconciled(s, merged).value, target)
  {
    hide MergedOrder, DenseOrders;
    ReconciledIsExact(s, merged);
    var r := Reconciled(s, merged).value;
    forall p ensures ChildList(r, p) == ChildList(target, p) {
      if p !in ParentsOf(merged) {
        assert ParentsOf(r) == ParentsOf(merged);
        ChildlessListsAgree(r, target, p);
      }
    }
  }

  ghost predicate GroupsLike(v: Versions, target: Records<Group>) {
    && GM.AllGroupsDecided(v) && PlacedLike(GM.SurvivingGroups(v), target) && Rooted(target, v.base.rootId)
    && forall p :: MergedOrder(GroupSides(v), GM.SurvivingGroups(v), p) == Success(ChildList(target, p))
  }

  ghost predicate EntriesLike(v: Versions, target: Records<Entry>)
    requires EntriesPlaced(v)
  {
    && AllEntriesDecided(v) && PlacedLike(SurvivingEntries(v), target)
    && forall p :: MergedOrder(EntrySides(v), SurvivingEntries(v), p) == Success(ChildList(target, p))
  }

  lemma GroupsPatchedLike(v: Versions, target: Records<Group>)
    requires GM.OneLineage(v) && GroupsLike(v, target)
    ensures PatchedGroups(v).Success? && SameLists(PatchedGroups(v).value, target)
  {
    hide GM.OneLineage, GM.SurvivingGroups, GM.GroupsMerged, Reconciled, ValidateHierarchy, SameLists, MergedOrder;
    GM.LineageIsLinked(v);
    GM.GroupsNeverOrphaned(v);
    var merged := GM.SurvivingGroups(v);
    ReconciledLike(GroupSides(v), merged, target);
    FollowingIsRooted(merged, target, target, v.base.rootId);
    var ordered := Reconciled(GroupSides(v), merged).value;
    SameRootedness(ordered, merged, v.base.rootId);
    ValidateIsExact(v.base.rootId, ordered);
  }

  lemma PatchedLike(v: Versions, groups: Records<Group>, entries: Records<Entry>)
    requires GM.OneLineage(v) && EntriesPlaced(v) && GroupsLike(v, groups) && EntriesLike(v, entries)
    ensures Patched(v).Success?
    ensures SameLists(Patched(v).value.groups, groups) && SameLists(Patched(v).value.entries, entries)
  {
    hide GM.OneLineage, GM.SurvivingGroups, PatchedGroups, EntriesMerged, Reconciled, SameLists, SurvivingEntries,
         EntriesPlaced, MergedOrder, GM.AllGroupsDecided;
    GroupsPatchedLike(v, groups);
    PatchedGroupsAre(v);
    LineageIsHoused(v);
    EntriesNeverOrphaned(v, PatchedGroups(v).value);
    ReconciledLike(EntrySides(v), SurvivingEntries(v), entries);
  }

  // ---- The shape of the returned tree ----

  lemma {:induction false} MirrorsTransfer(a: FlatVault, b: FlatVault, g: Group)
    requires SameLists(a.groups, b.groups) && SameLists(a.entries, b.entries) && Mirrors(b, g)
    ensures Mirrors(a, g)
    decreases g, 1
  {
    MirrorsAllTransfer(a, b, g.children);
  }

  lemma {:induction false} MirrorsAllTransfer(a: FlatVault, b: FlatVault, groups: seq<Group>)
    requires SameLists(a.groups, b.groups) && SameLists(a.entries, b.entries) && MirrorsAll(b, groups)
    ensures MirrorsAll(a, groups)
    decreases groups, 0
  {
    if groups != [] {
      MirrorsTransfer(a, b, groups[0]);
      MirrorsAllTransfer(a, b, groups[1..]);
    }
  }

  /** Records listed like a vault's own rebuild to a tree of that vault's shape. */
  lemma RebuildsToShape(flat: FlatVault, vault: Vault, side: Version)
    requires WellFormed(flat) && flat.rootId == vault.root.id
    requires FlattenVault(vault, side).Success? && flat.groups.Keys == FlattenVault(vault, side).value.groups.Keys
    requires SameLists(flat.groups, FlattenVault(vault, side).value.groups)
    requires SameLists(flat.entries, FlattenVault(vault, side).value.entries)
    ensures var r := RebuildTree(flat.rootId, flat.groups, flat.entries, {});
      r.Success? && ShapeOf(r.value) == ShapeOf(vault.root)
  {
    hide DenseOrders, Rooted;
    FlattenedIsWellFormed(vault, side);
    FlattenIsExact(vault, side);
    MirrorsTransfer(flat, FlattenVault(vault, side).value, vault.root);
    RebuildFollowsMirror(flat, vault.root, {});
  }

  // ---- The checks before the merge pass ----

  lemma {:induction false} EntryFidelityPasses(b: FlatVault, l: FlatVault, r: FlatVault, ids: seq<Uuid>)
    requires OneChange(b, l, r)
    ensures AllEntryFidelity(b, l, r, ids).Pass?
  {
    if ids != [] {
      EntryFidelityPasses(b, l, r, ids[1..]);
    }
  }

  lemma {:induction false} GroupFidelityPasses(b: FlatVault, l: FlatVault, r: FlatVault, ids: seq<Uuid>)
    requires OneChange(b, l, r)
    ensures AllGroupFidelity(b, l, r, ids).Pass?
  {
    if ids != [] {
      GroupFidelityPasses(b, l, r, ids[1..]);
    }
  }

  lemma FidelityPasses(base: Vault, local: Vault, remote: Vault, v: Versions)
    requires OneChange(base, local, remote) && OneChange(v.base, v.local, v.remote)
    ensures EnsureFidelityRepresentable(base, local, remote, v.base, v.local, v.remote).Pass?
  {
    hide AllEntryFidelity, AllGroupFidelity;
    EntryFidelityPasses(v.base, v.local, v.remote, Ascending(v.base.entries.Keys));
    GroupFidelityPasses(v.base, v.local, v.remote, Ascending(v.base.groups.Keys));
  }

  lemma NoMetaConflict(base: Vault, local: Vault, remote: Vault)
    requires OneChange(base, local, remote)
    ensures !MetaConflicts(base, local, remote)
  {
    hide CD.Units, UnionKeys;
  }

  lemma NoIconClashes(base: Vault, local: Vault, remote: Vault)
    requires OneChange(base, local, remote)
    ensures NoIconClash(IconsById(base.customIcons), IconsById(local.customIcons), IconsById(remote.customIcons))
  {
  }

  /** With one changed version the vault's own fields always merge. */
  lemma MetaMerges(base: Vault, local: Vault, remote: Vault)
    requires OneChange(base, local, remote)
    ensures MergedMeta(base, local, remote).Success?
  {
    hide MergedMeta, MetaConflicts, NoIconClash, OneChange;
    MergedMetaIsExact(base, local, remote);
    NoMetaConflict(base, local, remote);
    NoIconClashes(base, local, remote);
  }

  // ---- Flattening does not depend on the side's name ----

  lemma {:induction false} EntriesSideFree(entries: seq<Entry>, order: nat, parent: Uuid, flat: FlatVault, a: Version, b: Version)
    requires FlattenEntries(entries, order, parent, a, flat).Success?
    ensures FlattenEntries(entries, order, parent, b, flat) == FlattenEntries(entries, order, parent, a, flat)
  {
    if entries != [] {
      EntriesSideFree(entries[1..], order + 1, parent,
        flat.(entries := flat.entries[entries[0].id := Flat(entries[0], Some(parent), order)]), a, b);
    }
  }

  lemma {:induction false} GroupSideFree(g: Group, parent: Option<Uuid>, order: nat, flat: FlatVault, a: Version, b: Version)
    requires FlattenGroup(g, parent, order, a, flat).Success?
    ensures FlattenGroup(g, parent, order, b, flat) == FlattenGroup(g, parent, order, a, flat)
    decreases g, 1
  {
    var withGroup := flat.(groups := flat.groups[g.id := Flat(Shell(g), parent, order)]);
    EntriesSideFree(g.entries, 0, g.id, withGroup, a, b);
    ChildrenSideFree(g.children, 0, g.id, FlattenEntries(g.entries, 0, g.id, a, withGroup).value, a, b);
  }

  lemma {:induction false} ChildrenSideFree(
    children: seq<Group>, order: nat, parent: Uuid, flat: FlatVault, a: Version, b: Version)
    requires FlattenChildren(children, order, parent, a, flat).Success?
    ensures FlattenChildren(children, order, parent, b, flat) == FlattenChildren(children, order, parent, a, flat)
    decreases children, 0
  {
    if children != [] {
      GroupSideFree(children[0], Some(parent), order, flat, a, b);
      ChildrenSideFree(children[1..], order + 1, parent, FlattenGroup(children[0], Some(parent), order, a, flat).value, a, b);
    }
  }

  lemma VaultSideFree(vault: Vault, a: Version, b: Version)
    requires DistinctGroup(vault.root)
    ensures FlattenVault(vault, a).Success? && FlattenVault(vault, b) == FlattenVault(vault, a)
  {
    hide DistinctGroup;
    FlattenIsExact(vault, a);
    GroupSideFree(vault.root, None, 0, FlatVault(vault.root.id, map[], map[]), a, b);
  }

  // ---- The laws ----

  /** A vault that repeats no identifier. */
  ghost predicate Patchable(vault: Vault) {
    DistinctGroup(vault.root) && Distinct(IconIds(vault.customIcons)) && Distinct(DeletedIds(vault.deletedObjects))
  }

  lemma PatchableMeta(vault: Vault, side: Version)
    requires Patchable(vault)
    ensures EnsureUniqueMetaIds(vault, side).Pass?
  {
    UniqueMetaIdsIsExact(vault, side);
  }

  /** The versions of a patch, by which vaults they come from. */
  lemma VersionsOf(base: Vault, local: Vault, remote: Vault) returns (v: Versions)
    requires Patchable(base) && Patchable(local) && Patchable(remote)
    requires base.root.id == local.root.id == remote.root.id
    ensures Flattened(base, local, remote) == Success(v)
    ensures GM.OneLineage(v) && EntriesPlaced(v) && v.base.rootId == base.root.id
    ensures FlattenVault(base, BaseSide) == Success(v.base) && FlattenVault(local, BaseSide) == Success(v.local)
    ensures FlattenVault(remote, BaseSide) == Success(v.remote)
  {
    hide DistinctGroup, GM.OneLineage, FlattenVault, EntriesPlaced;
    FlattenedIsExact(base, local, remote);
    FlattenedIsOneLineage(base, local, remote);
    LineageRoot(base, local, remote);
    VaultSideFree(base, BaseSide, BaseSide);
    VaultSideFree(local, BaseSide, LocalSide);
    VaultSideFree(remote, BaseSide, RemoteSide);
    v := Flattened(base, local, remote).value;
  }

  /** Once the flat patch lists its records like `target`, the patch returns a tree of `target`'s shape. */
  lemma PatchHasShape(base: Vault, local: Vault, remote: Vault, v: Versions, target: Vault, t: FlatVault)
    requires OneChange(base, local, remote) && Flattened(base, local, remote) == Success(v)
    requires GM.OneLineage(v) && EntriesPlaced(v) && Preflight(base, local, remote, v).Pass?
    requires FlattenVault(target, BaseSide) == Success(t) && target.root.id == v.base.rootId
    requires GroupsLike(v, t.groups) && EntriesLike(v, t.entries)
    ensures var r := Patch(base, local, remote);
      r.Success? && ShapeOf(r.value.vault.root) == ShapeOf(target.root)
  {
    hide GM.OneLineage, EntriesPlaced, Preflight, Patched, RebuildTree, MergedMeta, WellFormed, SameLists, Flattened,
         FlattenVault, OneChange, GroupsLike, EntriesLike, FromSurvivors, ShapeOf;
    PatchedLike(v, t.groups, t.entries);
    var p := Patched(v).value;
    PatchedSteps(v, p);
    PatchedIsWellFormed(v, p);
    PatchedKeys(v, p, t);
    RebuildsToShape(FlatOf(v, p), target, BaseSide);
    MetaMerges(base, local, remote);
  }

  lemma PatchedKeys(v: Versions, p: PatchedRecords, t: FlatVault)
    requires EntriesPlaced(v) && FromSurvivors(v, p) && GroupsLike(v, t.groups)
    ensures p.groups.Keys == t.groups.Keys
  {
    hide EntriesPlaced, GM.SurvivingGroups, SurvivingEntries, DenseOrders, Rooted, MergedOrder, GM.AllGroupsDecided;
  }

  /** Nothing is out of order when local kept the base's lists or shares remote's. */
  lemma NoReorderWhenRemoteDecides(v: Versions)
    requires RemoteDecides(v)
    ensures EnsureLocalSiblingOrder(v.base, v.local, v.remote).Pass?
  {
    EnsureLocalSiblingOrderIsExact(v.base, v.local, v.remote);
  }

  lemma RemoteLike(v: Versions)
    requires GM.OneLineage(v) && EntriesPlaced(v) && RemoteDecides(v)
    ensures GroupsLike(v, v.remote.groups) && EntriesLike(v, v.remote.entries)
  {
    GM.LineageIsLinked(v);
    RemoteGroupsSurvive(v);
    RemoteEntriesSurvive(v);
    hide GM.SurvivingGroups, SurvivingEntries, GM.AllGroupsDecided, MergedOrder, DenseOrders;
    forall p ensures MergedOrder(GroupSides(v), GM.SurvivingGroups(v), p) == Success(ChildList(v.remote.groups, p)) {
      RemoteOrderStands(GroupSides(v), GM.SurvivingGroups(v), p);
    }
    forall p ensures MergedOrder(EntrySides(v), SurvivingEntries(v), p) == Success(ChildList(v.remote.entries, p)) {
      RemoteOrderStands(EntrySides(v), SurvivingEntries(v), p);
    }
  }

  lemma RemoteDecidedPatch(base: Vault, local: Vault, remote: Vault)
    requires Patchable(base) && Patchable(local) && Patchable(remote)
    requires base.root.id == local.root.id == remote.root.id
    requires local == base || local == remote
    ensures var r := Patch(base, local, remote);
      r.Success? && ShapeOf(r.value.vault.root) == ShapeOf(remote.root)
  {
    hide Patchable, GM.OneLineage, EntriesPlaced, EnsureUniqueMetaIds, EnsureFidelityRepresentable, Patch, ShapeOf,
         EnsureLocalSiblingOrder, GroupsLike, EntriesLike, FlattenVault, Flattened;
    var v := VersionsOf(base, local, remote);
    PatchableMeta(base, BaseSide);
    PatchableMeta(local, LocalSide);
    PatchableMeta(remote, RemoteSide);
    FidelityPasses(base, local, remote, v);
    NoReorderWhenRemoteDecides(v);
    RemoteLike(v);
    PatchHasShape(base, local, remote, v, remote, v.remote);
  }

  /** Applying no change to any remote gives remote's tree. */
  lemma PatchOfNothing(base: Vault, remote: Vault)
    requires Patchable(base) && Patchable(remote) && base.root.id == remote.root.id
    ensures var r := Patch(base, base, remote);
      r.Success? && ShapeOf(r.value.vault.root) == ShapeOf(remote.root)
  {
    hide *;
    RemoteDecidedPatch(base, base, remote);
  }

  /** Applying a change the remote already has gives that same tree. */
  lemma PatchAlreadyApplied(base: Vault, side: Vault)
    requires Patchable(base) && Patchable(side) && base.root.id == side.root.id
    ensures var r := Patch(base, side, side);
      r.Success? && ShapeOf(r.value.vault.root) == ShapeOf(side.root)
  {
    hide *;
    RemoteDecidedPatch(base, side, side);
  }

  /** Under some group of the base, local lists the children that stayed there in another order. */
  ghost predicate ReordersStayed(base: FlatVault, local: FlatVault) {
    exists p :: p in base.groups
      && (!KeepsOrder(base.entries, local.entries, p) || !KeepsOrder(base.groups, local.groups, p))
  }

  lemma ReorderedIsReordersStayed<V>(base: Records<V>, local: Records<V>, p: Uuid)
    ensures LocalReorders(ChildList(base, p), ChildList(local, p), ChildList(base, p)) <==> !KeepsOrder(base, local, p)
  {
    assert Elements(ChildList(base, p)) * Elements(ChildList(local, p)) * Elements(ChildList(base, p))
        == ChildIds(base, p) * ChildIds(local, p);
  }

  lemma OrderCheckIsExact(v: Versions)
    requires v.remote == v.base
    ensures var order := EnsureLocalSiblingOrder(v.base, v.local, v.remote);
      && (order.Fail? <==> ReordersStayed(v.base, v.local))
      && (order.Fail? ==> order.error.SiblingOrderChange?)
  {
    hide LocalReorders, KeepsOrder;
    EnsureLocalSiblingOrderIsExact(v.base, v.local, v.remote);
    forall p ensures EntriesReordered(v.base, v.local, v.remote, p) <==> !KeepsOrder(v.base.entries, v.local.entries, p)
             ensures GroupsReordered(v.base, v.local, v.remote, p) <==> !KeepsOrder(v.base.groups, v.local.groups, p)
    {
      ReorderedIsReordersStayed(v.base.entries, v.local.entries, p);
      ReorderedIsReordersStayed(v.base.groups, v.local.groups, p);
    }
  }

  lemma {:induction false} OnlyNothing(q: seq<Uuid>)
    ensures Only(q, {}) == []
  {
    if q != [] {
      OnlyNothing(q[1..]);
    }
  }

  lemma ChildlessKeepsOrder<V>(base: Records<V>, local: Records<V>, p: Uuid)
    requires ChildIds(base, p) == {}
    ensures KeepsOrder(base, local, p)
  {
    OnlyNothing(ChildList(base, p));
    OnlyNothing(ChildList(local, p));
    assert ChildIds(base, p) * ChildIds(local, p) == {};
  }

  lemma OrdersKeptEverywhere(v: Versions, p: Uuid)
    requires GM.OneLineage(v) && !ReordersStayed(v.base, v.local)
    ensures KeepsOrder(v.base.groups, v.local.groups, p) && KeepsOrder(v.base.entries, v.local.entries, p)
  {
    if p !in v.base.groups {
      RootedIsLinked(v.base.groups, v.base.rootId);
      hide KeepsOrder;
      ChildlessKeepsOrder(v.base.groups, v.local.groups, p);
      ChildlessKeepsOrder(v.base.entries, v.local.entries, p);
    }
  }

  lemma LineageRootsAgree(v: Versions)
    requires GM.OneLineage(v)
    ensures SameRoots(v.base.groups, v.local.groups) && SameRoots(v.base.entries, v.local.entries)
  {
    hide DenseOrders;
    RootedIsLinked(v.base.groups, v.base.rootId);
    RootedIsLinked(v.local.groups, v.base.rootId);
  }

  lemma LocalLike(v: Versions)
    requires GM.OneLineage(v) && EntriesPlaced(v) && v.remote == v.base && !ReordersStayed(v.base, v.local)
    ensures GroupsLike(v, v.local.groups) && EntriesLike(v, v.local.entries)
  {
    assert v.base.rootId == v.local.rootId;
    hide GM.SurvivingGroups, SurvivingEntries, GM.AllGroupsDecided, MergedOrder, DenseOrders, KeepsOrder,
         GM.OneLineage, EntriesPlaced, GM.AllLinked, AllEntriesDecided;
    GM.LineageIsLinked(v);
    LocalGroupsSurvive(v);
    LocalEntriesSurvive(v);
    LineageRootsAgree(v);
    forall p ensures MergedOrder(GroupSides(v), GM.SurvivingGroups(v), p) == Success(ChildList(v.local.groups, p)) {
      OrdersKeptEverywhere(v, p);
      LocalOrderStands(GroupSides(v), GM.SurvivingGroups(v), p);
    }
    forall p ensures MergedOrder(EntrySides(v), SurvivingEntries(v), p) == Success(ChildList(v.local.entries, p)) {
      OrdersKeptEverywhere(v, p);
      LocalOrderStands(EntrySides(v), SurvivingEntries(v), p);
    }
  }

  /**
    Applying a change to the unchanged remote gives exactly local's tree, unless
    local reordered siblings that stayed under one parent; then, and only then,
    the patch is refused for that order.
   */
  lemma PatchOntoBase(base: Vault, local: Vault)
    requires Patchable(base) && Patchable(local) && base.root.id == local.root.id
    ensures FlattenVault(base, BaseSide).Success? && FlattenVault(local, BaseSide).Success?
    ensures var r := Patch(base, local, base);
      if ReordersStayed(FlattenVault(base, BaseSide).value, FlattenVault(local, BaseSide).value)
      then r.Failure? && r.error.SiblingOrderChange?
      else r.Success? && ShapeOf(r.value.vault.root) == ShapeOf(local.root)
  {
    hide Patchable, GM.OneLineage, EntriesPlaced, EnsureUniqueMetaIds, EnsureFidelityRepresentable, ShapeOf, Patched,
         EnsureLocalSiblingOrder, GroupsLike, EntriesLike, FlattenVault, Flattened, ReordersStayed, MergedMeta;
    var v := VersionsOf(base, local, base);
    PatchableMeta(base, BaseSide);
    PatchableMeta(local, LocalSide);
    PatchableMeta(base, RemoteSide);
    FidelityPasses(base, local, base, v);
    OrderCheckIsExact(v);
    if !ReordersStayed(v.base, v.local) {
      LocalLike(v);
      PatchHasShape(base, local, base, v, local, v.local);
    }
  }
}
