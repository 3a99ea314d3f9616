/** Exactly when the patch succeeds, and exactly when it reports a cycle. */
module PatchSuccess {
  import opened Wrappers
  import opened IdOrder
  import opened Model
  import opened Forest
  import opened Tree
  import opened Rebuild
  import opened SiblingMerge
  import opened GroupHierarchy
  import opened EntrySurvival
  import opened MetaMerge
  import opened PatchRecords
  import opened ThreeWayPatch
  import opened PatchTheorems
  import opened Clashes
  import opened VaultFates
  import opened SiblingPairs
  import GM = GroupMerge

  // ---- The conditions ----

  /** Three trees that repeat no identifier and share one root. */
  predicate ThreeTrees(base: Vault, local: Vault, remote: Vault) {
    && DistinctGroup(base.root) && DistinctGroup(local.root) && DistinctGroup(remote.root)
    && base.root.id == local.root.id == remote.root.id
  }

  ghost predicate UniqueMetaIds(vault: Vault) {
    Distinct(IconIds(vault.customIcons)) && Distinct(DeletedIds(vault.deletedObjects))
  }

  /** What is asked of the inputs before anything is merged. */
  ghost predicate Representable(base: Vault, local: Vault, remote: Vault, v: Versions) {
    && UniqueMetaIds(base) && UniqueMetaIds(local) && UniqueMetaIds(remote)
    && AllFidelityJoins(base, local, remote, v)
    && (forall p :: p in v.base.groups ==>
          && !Reordered(v.base.entries, v.local.entries, v.remote.entries, p)
          && !Reordered(v.base.groups, v.local.groups, v.remote.groups, p))
  }

  /** Every sibling list under a surviving parent can be rebased. */
  ghost predicate OrdersMerge<V>(s: Sides<V>, merged: Records<V>) {
    forall p :: p in ParentsOf(merged) ==> MergedOrder(s, merged, p).Success?
  }

  ghost predicate GroupsMerge(v: Versions) {
    NoGroupClash(v) && OrdersMerge(GroupSides(v), GM.SurvivingGroups(v))
  }

  ghost predicate EntriesMerge(v: Versions)
    requires EntriesPlaced(v)
  {
    NoEntryClash(v) && OrdersMerge(EntrySides(v), SurvivingEntries(v))
  }

  ghost predicate MetaMerges(base: Vault, local: Vault, remote: Vault) {
    !VaultContested(base, local, remote)
  }

  // ---- Stage by stage ----

  lemma PreflightIsExact(base: Vault, local: Vault, remote: Vault, v: Versions)
    ensures Preflight(base, local, remote, v).Pass? <==> Representable(base, local, remote, v)
  {
    forall p
      ensures EntriesReordered(v.base, v.local, v.remote, p) <==> Reordered(v.base.entries, v.local.entries, v.remote.entries, p)
      ensures GroupsReordered(v.base, v.local, v.remote, p) <==> Reordered(v.base.groups, v.local.groups, v.remote.groups, p)
    {
      ReorderedExactly(v.base.entries, v.local.entries, v.remote.entries, p);
      ReorderedExactly(v.base.groups, v.local.groups, v.remote.groups, p);
    }
    hide EnsureUniqueMetaIds, EnsureFidelityRepresentable, EnsureLocalSiblingOrder, AllFidelityJoins, EntriesReordered,
         GroupsReordered, Reordered, Distinct;
    UniqueMetaIdsIsExact(base, BaseSide);
    UniqueMetaIdsIsExact(local, LocalSide);
    UniqueMetaIdsIsExact(remote, RemoteSide);
    FidelityJoinsExactly(base, local, remote, v);
    EnsureLocalSiblingOrderIsExact(v.base, v.local, v.remote);
  }

  lemma PatchedGroupsIsExact(v: Versions)
    requires GM.OneLineage(v)
    ensures PatchedGroups(v).Success? <==> GroupsMerge(v) && Rooted(GM.SurvivingGroups(v), v.base.rootId)
    ensures PatchedGroups(v).Failure? && PatchedGroups(v).error.GroupCycle?
       <==> GroupsMerge(v) && !Rooted(GM.SurvivingGroups(v), v.base.rootId)
  {
    hide GM.SurvivingGroups, GM.GroupsMerged, Reconciled, ValidateHierarchy, MergedOrder, Rooted, GM.AllGroupsDecided,
         NoGroupClash;
    GM.LineageIsLinked(v);
    GM.GroupsNeverOrphaned(v);
    GroupsDecidedExactly(v);
    if GM.AllGroupsDecided(v) {
      var merged := GM.SurvivingGroups(v);
      ReconciledIsExact(GroupSides(v), merged);
      var ordered := Reconciled(GroupSides(v), merged);
      if ordered.Success? {
        SameRootedness(ordered.value, merged, v.base.rootId);
        ValidateIsExact(v.base.rootId, ordered.value);
      }
    }
  }

  lemma PatchedEntriesIsExact(v: Versions)
    requires GM.OneLineage(v) && EntriesPlaced(v) && PatchedGroups(v).Success?
    ensures Patched(v).Success? <==> EntriesMerge(v)
    ensures Patched(v).Failure? ==> !Patched(v).error.GroupCycle?
  {
    hide GM.SurvivingGroups, SurvivingEntries, PatchedGroups, EntriesMerged, Reconciled, MergedOrder, GM.OneLineage,
         AllEntriesDecided, EntriesHoused, NoEntryClash;
    LineageIsHoused(v);
    EntriesDecidedExactly(v);
    PatchedGroupsAre(v);
    EntriesNeverOrphaned(v, PatchedGroups(v).value);
    ReconciledIsExact(EntrySides(v), SurvivingEntries(v));
  }

  /** Groups and entries are patched exactly when every one of them and every sibling list merges, into one tree. */
  lemma PatchedIsExact(v: Versions)
    requires GM.OneLineage(v) && EntriesPlaced(v)
    ensures Patched(v).Success? <==>
      GroupsMerge(v) && Rooted(GM.SurvivingGroups(v), v.base.rootId) && EntriesMerge(v)
    ensures Patched(v).Failure? && Patched(v).error.GroupCycle?
       <==> GroupsMerge(v) && !Rooted(GM.SurvivingGroups(v), v.base.rootId)
  {
    hide GM.SurvivingGroups, PatchedGroups, Rooted, GM.OneLineage, EntriesPlaced, GroupsMerge, EntriesMerge,
         EntriesMerged, Reconciled;
    PatchedGroupsIsExact(v);
    if PatchedGroups(v).Success? {
      PatchedEntriesIsExact(v);
    }
  }

  // ---- The whole patch ----

  /**
    The patch succeeds exactly when the inputs are three trees of one lineage,
    their fidelity and orders are representable, every group, entry and sibling
    list merges, the merged groups form one tree, and the vault fields merge.
   */
  lemma PatchSucceedsExactly(base: Vault, local: Vault, remote: Vault)
    ensures ThreeTrees(base, local, remote) <==> Flattened(base, local, remote).Success?
    ensures Patch(base, local, remote).Success? ==> ThreeTrees(base, local, remote)
    ensures ThreeTrees(base, local, remote) ==>
      var v := Flattened(base, local, remote).value;
      (Patch(base, local, remote).Success? <==>
         && Representable(base, local, remote, v)
         && GroupsMerge(v) && Rooted(GM.SurvivingGroups(v), v.base.rootId) && EntriesMerge(v)
         && MetaMerges(base, local, remote))
  {
    hide DistinctGroup, Flattened, Preflight, Patched, RebuildTree, MergedMeta, GM.OneLineage, Representable, GroupsMerge,
         EntriesMerge, Rooted, GM.SurvivingGroups, EntriesPlaced, VaultContested;
    FlattenedIsExact(base, local, remote);
    var flat := Flattened(base, local, remote);
    if flat.Success? {
      FlattenedIsOneLineage(base, local, remote);
      PreflightIsExact(base, local, remote, flat.value);
      PatchedIsExact(flat.value);
      MergedMetaIsExact(base, local, remote);
      MergedVault(base, local, remote);
      if Patched(flat.value).Success? {
        RebuildNeverFails(flat.value, Patched(flat.value).value);
      }
    }
  }

  /** A cycle is reported exactly when everything up to the hierarchy merges and the merged groups form no tree. */
  lemma CycleReportedExactly(base: Vault, local: Vault, remote: Vault)
    ensures var r := Patch(base, local, remote);
      r.Failure? && r.error.GroupCycle? <==>
        && Flattened(base, local, remote).Success?
        && var v := Flattened(base, local, remote).value;
           Representable(base, local, remote, v) && GroupsMerge(v) && !Rooted(GM.SurvivingGroups(v), v.base.rootId)
  {
    hide DistinctGroup, Flattened, Preflight, Patched, RebuildTree, MergedMeta, GM.OneLineage, Representable, GroupsMerge,
         EntriesMerge, Rooted, GM.SurvivingGroups, EntriesPlaced;
    FlattenedIsExact(base, local, remote);
    var flat := Flattened(base, local, remote);
    if flat.Success? {
      FlattenedIsOneLineage(base, local, remote);
      PreflightIsExact(base, local, remote, flat.value);
      PreflightErrors(base, local, remote, flat.value);
      PatchedIsExact(flat.value);
      MergedMetaIsExact(base, local, remote);
      if Patched(flat.value).Success? {
        RebuildNeverFails(flat.value, Patched(flat.value).value);
      }
    }
  }
}
