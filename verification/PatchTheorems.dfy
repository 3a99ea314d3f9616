/** What the patch guarantees for all vaults. */
module PatchTheorems {
  import opened Wrappers
  import opened IdOrder
  import opened Model
  import opened Forest
  import opened Tree
  import opened Siblings
  import opened Rebuild
  import opened RebuildInverse
  import opened SiblingMerge
  import opened GroupHierarchy
  import opened EntryMerge
  import opened EntrySurvival
  import opened MetaMerge
  import opened PatchRecords
  import opened ThreeWayPatch
  import GM = GroupMerge
  import Subtrees

  // ---- Errors of flattening ----

  lemma {:induction false} EntryListErrors(entries: seq<Entry>, order: nat, parent: Uuid, side: Version, flat: FlatVault)
    ensures var r := FlattenEntries(entries, order, parent, side, flat);
      r.Failure? ==> exists id :: r.error == DuplicateEntry(side, id)
  {
    if entries != [] && entries[0].id !in flat.entries {
      var next := flat.(entries := flat.entries[entries[0].id := Flat(entries[0], Some(parent), order)]);
      EntryListErrors(entries[1..], order + 1, parent, side, next);
    }
  }

  ghost predicate IsDuplicate(e: PatchError) {
    e.DuplicateEntry? || e.DuplicateGroup?
  }

  lemma {:induction false} GroupTreeErrors(g: Group, parent: Option<Uuid>, order: nat, side: Version, flat: FlatVault)
    ensures var r := FlattenGroup(g, parent, order, side, flat);
      r.Failure? ==> IsDuplicate(r.error) && r.error.side == side
    decreases g, 1
  {
    if g.id !in flat.groups {
      var withGroup := flat.(groups := flat.groups[g.id := Flat(Shell(g), parent, order)]);
      EntryListErrors(g.entries, 0, g.id, side, withGroup);
      var e := FlattenEntries(g.entries, 0, g.id, side, withGroup);
      if e.Success? {
        GroupTreesErrors(g.children, 0, g.id, side, e.value);
      }
    }
  }

  lemma {:induction false} GroupTreesErrors(children: seq<Group>, order: nat, parent: Uuid, side: Version, flat: FlatVault)
    ensures var r := FlattenChildren(children, order, parent, side, flat);
      r.Failure? ==> IsDuplicate(r.error) && r.error.side == side
    decreases children, 0
  {
    if children != [] {
      GroupTreeErrors(children[0], Some(parent), order, side, flat);
      var first := FlattenGroup(children[0], Some(parent), order, side, flat);
      if first.Success? {
        GroupTreesErrors(children[1..], order + 1, parent, side, first.value);
      }
    }
  }

  /** The inputs are refused for a repeated identifier, or for different roots, exactly when they have them. */
  lemma FlattenedIsExact(base: Vault, local: Vault, remote: Vault)
    ensures var r := Flattened(base, local, remote);
      && (r.Success? <==>
            && DistinctGroup(base.root) && DistinctGroup(local.root) && DistinctGroup(remote.root)
            && base.root.id == local.root.id == remote.root.id)
      && (r.Failure? ==>
            if DistinctGroup(base.root) && DistinctGroup(local.root) && DistinctGroup(remote.root)
            then r.error == RootLineageMismatch else IsDuplicate(r.error))
  {
    hide DistinctGroup;
    FlattenIsExact(base, BaseSide);
    FlattenIsExact(local, LocalSide);
    FlattenIsExact(remote, RemoteSide);
    GroupTreeErrors(base.root, None, 0, BaseSide, FlatVault(base.root.id, map[], map[]));
    GroupTreeErrors(local.root, None, 0, LocalSide, FlatVault(local.root.id, map[], map[]));
    GroupTreeErrors(remote.root, None, 0, RemoteSide, FlatVault(remote.root.id, map[], map[]));
  }

  lemma FlattenedIsOneLineage(base: Vault, local: Vault, remote: Vault)
    requires Flattened(base, local, remote).Success?
    ensures GM.OneLineage(Flattened(base, local, remote).value)
  {
    hide GM.OneLineage, FlattenVault, EntriesPlaced;
    FlattenedAreHoused(base, local, remote);
  }

  // ---- Errors of the patch ----

  /** Both sides moved some group that all three versions hold. */
  ghost predicate BothMovedGroups(v: Versions) {
    !KeepsParents(v, v.local.groups) && !KeepsParents(v, v.remote.groups)
  }

  lemma RebuildNeverFails(v: Versions, p: PatchedRecords)
    requires GM.OneLineage(v) && EntriesPlaced(v) && Patched(v) == Success(p)
    ensures RebuildTree(v.base.rootId, p.groups, p.entries, {}).Success?
  {
    hide WellFormed, Patched, GM.OneLineage, Rebuilt;
    PatchedIsWellFormed(v, p);
    RebuildPlacesAll(FlatOf(v, p));
  }

  /**
    Every failure of the patch. A missing parent is never reported; a cycle
    needs both sides to have moved groups that all three versions hold.
   */
  lemma PatchErrors(base: Vault, local: Vault, remote: Vault)
    requires Patch(base, local, remote).Failure?
    ensures var e := Patch(base, local, remote).error;
      && !e.MissingParent?
      && (e.GroupCycle? ==>
            Flattened(base, local, remote).Success? && BothMovedGroups(Flattened(base, local, remote).value))
      && (e.RootLineageMismatch? ==>
            && DistinctGroup(base.root) && DistinctGroup(local.root) && DistinctGroup(remote.root)
            && !(base.root.id == local.root.id == remote.root.id))
      && (IsDuplicate(e) ==>
            !(DistinctGroup(base.root) && DistinctGroup(local.root) && DistinctGroup(remote.root)))
  {
    hide DistinctGroup, Flattened, Preflight, Patched, RebuildTree, MergedMeta, BothMovedGroups, GM.OneLineage;
    FlattenedIsExact(base, local, remote);
    var flat := Flattened(base, local, remote);
    if flat.Success? {
      var v := flat.value;
      FlattenedIsOneLineage(base, local, remote);
      PreflightErrors(base, local, remote, v);
      MergedMetaIsExact(base, local, remote);
      if Patched(v).Failure? {
        FailureIsNotOrphan(v);
      } else {
        RebuildNeverFails(v, Patched(v).value);
      }
    }
  }

  lemma FailureIsNotOrphan(v: Versions)
    requires GM.OneLineage(v) && EntriesPlaced(v) && Patched(v).Failure?
    ensures var e := Patched(v).error;
      && !e.MissingParent? && !e.RootLineageMismatch? && !IsDuplicate(e)
      && (e.GroupCycle? ==> BothMovedGroups(v))
  {
    hide Patched, GM.OneLineage, KeepsParents;
    PatchFailures(v);
  }

  // ---- Guarantees of a successful patch ----

  ghost predicate Stages(base: Vault, local: Vault, remote: Vault, v: Versions, p: PatchedRecords, result: PatchResult) {
    && Flattened(base, local, remote) == Success(v)
    && EntriesPlaced(v) && Patched(v) == Success(p)
    && RebuildTree(v.base.rootId, p.groups, p.entries, {}) == Success(result.vault.root)
    && MergedMeta(base, local, remote).Success?
    && result.vault == WithRoot(MergedMeta(base, local, remote).value, result.vault.root, p.groups.Keys + p.entries.Keys)
    && result.required == p.required
  }

  lemma PatchStages(base: Vault, local: Vault, remote: Vault, result: PatchResult) returns (v: Versions, p: PatchedRecords)
    requires Patch(base, local, remote) == Success(result)
    ensures Stages(base, local, remote, v, p, result)
  {
    hide Flattened, Patched, RebuildTree, MergedMeta, Preflight, EntriesPlaced;
    v := Flattened(base, local, remote).value;
    p := Patched(v).value;
  }

  /** A flat vault holds exactly the surviving groups and entries, each entry whole and each under its merged parent. */
  ghost predicate HoldsSurvivors(flat: FlatVault, v: Versions)
    requires EntriesPlaced(v)
  {
    && flat.groups.Keys == GM.SurvivingGroups(v).Keys && flat.entries.Keys == SurvivingEntries(v).Keys
    && (forall id :: id in flat.groups ==>
          && flat.groups[id].parent == GM.SurvivingGroups(v)[id].parent
          && SameButSlots(Shell(flat.groups[id].value), Shell(GM.SurvivingGroups(v)[id].value)))
    && (forall id :: id in flat.entries ==>
          && flat.entries[id].parent == SurvivingEntries(v)[id].parent
          && flat.entries[id].value == SurvivingEntries(v)[id].value)
  }

  lemma SameRecordsAreSurvivors(again: FlatVault, v: Versions, p: PatchedRecords)
    requires EntriesPlaced(v) && FromSurvivors(v, p)
    requires again.groups.Keys == p.groups.Keys && again.entries.Keys == p.entries.Keys
    requires SameRecords(again, FlatOf(v, p), p.groups.Keys, p.entries.Keys)
    ensures HoldsSurvivors(again, v)
  {
    hide GM.SurvivingGroups, SurvivingEntries, DenseOrders, Rooted, EntriesPlaced;
  }

  /**
    A successful patch returns a tree that repeats no identifier, keeps the
    common root, and flattens to exactly the surviving groups and entries, each
    once, under its merged parent.
   */
  lemma PatchHoldsSurvivors(base: Vault, local: Vault, remote: Vault, result: PatchResult, side: Version)
    requires Patch(base, local, remote) == Success(result)
    ensures Flattened(base, local, remote).Success?
    ensures DistinctGroup(result.vault.root) && result.vault.root.id == base.root.id
    ensures var again := FlattenVault(result.vault, side);
      again.Success? && HoldsSurvivors(again.value, Flattened(base, local, remote).value)
  {
    hide Flattened, Patched, RebuildTree, MergedMeta, Patch, GM.OneLineage, WellFormed, FromSurvivors, HoldsSurvivors,
         FlattenVault, Rebuilt, EntriesPlaced, SameRecords;
    var v, p := PatchStages(base, local, remote, result);
    FlattenedIsOneLineage(base, local, remote);
    PatchedSteps(v, p);
    PatchedIsWellFormed(v, p);
    var flat := FlatOf(v, p);
    RebuildPlacesAll(flat);
    FlattenOfRebuild(flat, result.vault, side);
    SameRecordsAreSurvivors(FlattenVault(result.vault, side).value, v, p);
    LineageRoot(base, local, remote);
  }

  lemma LineageRoot(base: Vault, local: Vault, remote: Vault)
    requires Flattened(base, local, remote).Success?
    ensures Flattened(base, local, remote).value.base.rootId == base.root.id
  {
    hide FlattenVault, EntriesPlaced;
    FlattenedAreHoused(base, local, remote);
  }

  /** Every losing version the caller must store is in the history of an entry of the returned tree. */
  lemma RequiredReachTree(base: Vault, local: Vault, remote: Vault, result: PatchResult, side: Version)
    requires Patch(base, local, remote) == Success(result)
    ensures FlattenVault(result.vault, side).Success?
    ensures forall r :: r in result.required ==>
      && r.entryId in FlattenVault(result.vault, side).value.entries
      && r.snapshot in FlattenVault(result.vault, side).value.entries[r.entryId].value.history
  {
    hide Flattened, Patched, RebuildTree, MergedMeta, Patch, GM.OneLineage, FromSurvivors, EntriesMerged,
         FlattenVault, EntriesPlaced, SurvivingEntries, GM.SurvivingGroups, Reconciled;
    var v, p := PatchStages(base, local, remote, result);
    PatchHoldsSurvivors(base, local, remote, result, side);
    FlattenedIsOneLineage(base, local, remote);
    var merged := PatchedStages(v, p);
    LineageIsKeyed(v);
    RequiredSnapshotsAreKept(v, p.groups);
    MergedAreSurvivors(v, p.groups);
  }

  lemma MergedAreSurvivors(v: Versions, groups: Records<Group>)
    requires EntriesPlaced(v) && EntriesMerged(v, groups).Success?
    ensures EntriesMerged(v, groups).value.records == SurvivingEntries(v)
  {
    hide SurvivingEntries, RequiredSnapshots, FirstEntryError;
  }

  /** No tombstone names a group or entry of the returned tree; every other merged tombstone is kept. */
  lemma TombstonesAreDead(base: Vault, local: Vault, remote: Vault, result: PatchResult)
    requires Patch(base, local, remote) == Success(result)
    ensures forall d ::
      d in result.vault.deletedObjects <==>
        && d in MergedDeletions(base.deletedObjects, local.deletedObjects, remote.deletedObjects)
        && d.id !in AllGroupIds(result.vault.root) && d.id !in AllEntryIds(result.vault.root)
  {
    hide Flattened, Patched, RebuildTree, Patch, GM.OneLineage, WellFormed, Rebuilt, EntriesPlaced, MergedDeletions;
    var v, p := PatchStages(base, local, remote, result);
    FlattenedIsOneLineage(base, local, remote);
    PatchedIsWellFormed(v, p);
    RebuildPlacesAll(FlatOf(v, p));
    DeletionsMerged(base, local, remote);
    BuriedAreDead(MergedMeta(base, local, remote).value.deletedObjects, p.groups.Keys + p.entries.Keys);
  }

  lemma DeletionsMerged(base: Vault, local: Vault, remote: Vault)
    requires MergedMeta(base, local, remote).Success?
    ensures MergedMeta(base, local, remote).value.deletedObjects
         == MergedDeletions(base.deletedObjects, local.deletedObjects, remote.deletedObjects)
  {
    hide MergedDeletions, MergedIcons, MetaConflicts, MergedStamped;
  }
}
