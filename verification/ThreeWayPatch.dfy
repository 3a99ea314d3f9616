/** The whole three-way patch: from three vaults to one. */
module ThreeWayPatch {
  import opened Wrappers
  import opened IdOrder
  import opened Model
  import opened Forest
  import opened Tree
  import opened Siblings
  import opened Rebuild
  import opened RebuildInverse
  import opened SiblingMerge
  import opened GroupHierarchy
  import opened EntryMerge
  import opened EntrySurvival
  import opened MetaMerge
  import opened PatchRecords
  import opened RecordLoops
  import opened TreeInPlace
  import opened VaultLoops
  import GM = GroupMerge

  datatype PatchResult = PatchResult(vault: Vault, required: seq<RequiredSnapshot>)

  lemma FlattenedAreHoused(base: Vault, local: Vault, remote: Vault)
    requires FlattenVault(base, BaseSide).Success? && FlattenVault(local, LocalSide).Success?
    requires FlattenVault(remote, RemoteSide).Success?
    ensures var v := GM.Versions(FlattenVault(base, BaseSide).value, FlattenVault(local, LocalSide).value,
                                 FlattenVault(remote, RemoteSide).value);
      && EntriesPlaced(v)
      && (base.root.id == local.root.id == remote.root.id ==> GM.OneLineage(v))
      && v.base.rootId == base.root.id && v.local.rootId == local.root.id && v.remote.rootId == remote.root.id
  {
    hide DenseOrders, IsBelow, Mirrors, FlattenVault;
    FlattenedIsWellFormed(base, BaseSide);
    FlattenedIsWellFormed(local, LocalSide);
    FlattenedIsWellFormed(remote, RemoteSide);
  }

  /** The three flattened inputs. */
  function Flattened(base: Vault, local: Vault, remote: Vault): (r: Result<Versions, PatchError>)
    ensures r.Success? ==> EntriesPlaced(r.value)
  {
    var b :- FlattenVault(base, BaseSide);
    var l :- FlattenVault(local, LocalSide);
    var r :- FlattenVault(remote, RemoteSide);
    FlattenedAreHoused(base, local, remote);
    if b.rootId == l.rootId == r.rootId then Success(GM.Versions(b, l, r)) else Failure(RootLineageMismatch)
  }

  /** The checks made before anything is merged. */
  function Preflight(base: Vault, local: Vault, remote: Vault, v: Versions): Outcome<PatchError> {
    Both(EnsureUniqueMetaIds(base, BaseSide),
    Both(EnsureUniqueMetaIds(local, LocalSide),
    Both(EnsureUniqueMetaIds(remote, RemoteSide),
    Both(EnsureFidelityRepresentable(base, local, remote, v.base, v.local, v.remote),
         EnsureLocalSiblingOrder(v.base, v.local, v.remote)))))
  }

  function WithRoot(meta: Vault, root: Group, live: set<Uuid>): Vault {
    meta.(root := root, deletedObjects := Buried(meta.deletedObjects, live))
  }

  function Patch(base: Vault, local: Vault, remote: Vault): Result<PatchResult, PatchError> {
    var v :- Flattened(base, local, remote);
    :- Preflight(base, local, remote, v);
    var p :- Patched(v);
    var root :- RebuildTree(v.base.rootId, p.groups, p.entries, {});
    var meta :- MergedMeta(base, local, remote);
    Success(PatchResult(WithRoot(meta, root, p.groups.Keys + p.entries.Keys), p.required))
  }

  // ---- The orchestrating method ----

  /** Flattens the three inputs one after the other. */
  method FlattenAll(base: Vault, local: Vault, remote: Vault) returns (result: Result<Versions, PatchError>)
    ensures result == Flattened(base, local, remote)
  {
    hide FlattenVault, EntriesPlaced, GM.OneLineage;
    var b := FlattenInPlace(base, BaseSide);
    if b.Failure? {
      return Failure(b.error);
    }
    var l := FlattenInPlace(local, LocalSide);
    if l.Failure? {
      return Failure(l.error);
    }
    var r := FlattenInPlace(remote, RemoteSide);
    if r.Failure? {
      return Failure(r.error);
    }
    return if b.value.rootId == l.value.rootId == r.value.rootId then Success(GM.Versions(b.value, l.value, r.value))
           else Failure(RootLineageMismatch);
  }

  method CheckInputs(base: Vault, local: Vault, remote: Vault, v: Versions) returns (outcome: Outcome<PatchError>)
    ensures outcome == Preflight(base, local, remote, v)
  {
    hide EnsureUniqueMetaIds, EnsureFidelityRepresentable, EnsureLocalSiblingOrder;
    outcome := CheckUniqueMetaIds(base, BaseSide);
    if outcome.Pass? {
      outcome := CheckUniqueMetaIds(local, LocalSide);
    }
    if outcome.Pass? {
      outcome := CheckUniqueMetaIds(remote, RemoteSide);
    }
    if outcome.Pass? {
      outcome := CheckFidelity(base, local, remote, v.base, v.local, v.remote);
    }
    if outcome.Pass? {
      outcome := CheckSiblingOrder(v.base, v.local, v.remote);
    }
  }

  method ThreeWayFieldPatch(base: Vault, local: Vault, remote: Vault) returns (result: Result<PatchResult, PatchError>)
    ensures result == Patch(base, local, remote)
  {
    hide FlattenVault, MergedMeta, RebuildTree, Preflight, Reconciled, Flattened,
         EntriesPlaced, EntriesMerged, GM.GroupsMerged, ValidateHierarchy, WithRoot;
    var flat := FlattenAll(base, local, remote);
    if flat.Failure? {
      return Failure(flat.error);
    }
    var v := flat.value;
    var preflight := CheckInputs(base, local, remote, v);
    if preflight.Fail? {
      return Failure(preflight.error);
    }
    var mergedGroups := MergeGroups(v);
    if mergedGroups.Failure? {
      return Failure(mergedGroups.error);
    }
    var groups := ReconcileSiblingOrders(GroupSides(v), mergedGroups.value);
    if groups.Failure? {
      return Failure(groups.error);
    }
    var hierarchy := ValidateGroupHierarchy(v.base.rootId, groups.value);
    if hierarchy.Fail? {
      return Failure(hierarchy.error);
    }
    var mergedEntries := MergeEntries(v, groups.value);
    if mergedEntries.Failure? {
      return Failure(mergedEntries.error);
    }
    var entries := ReconcileSiblingOrders(EntrySides(v), mergedEntries.value.records);
    if entries.Failure? {
      return Failure(entries.error);
    }
    var root := RebuildInPlace(v.base.rootId, groups.value, entries.value, {});
    if root.Failure? {
      return Failure(root.error);
    }
    var meta := MergeMeta(base, local, remote);
    if meta.Failure? {
      return Failure(meta.error);
    }
    return Success(PatchResult(WithRoot(meta.value, root.value, groups.value.Keys + entries.value.Keys),
                               mergedEntries.value.required));
  }

  // ---- Every way to fail ----

  lemma PreflightErrors(base: Vault, local: Vault, remote: Vault, v: Versions)
    ensures var p := Preflight(base, local, remote, v);
      p.Fail? ==>
        || p.error.DuplicateCustomIcon? || p.error.DuplicateDeletedObject?
        || p.error.FidelityConflict? || p.error.SiblingOrderChange?
  {
    hide EnsureLocalSiblingOrder, EnsureFidelityRepresentable, EnsureUniqueMetaIds;
    UniqueMetaIdErrors(base, BaseSide);
    UniqueMetaIdErrors(local, LocalSide);
    UniqueMetaIdErrors(remote, RemoteSide);
    RepresentableErrors(base, local, remote, v.base, v.local, v.remote);
    EnsureLocalSiblingOrderIsExact(v.base, v.local, v.remote);
  }
}
