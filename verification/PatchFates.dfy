/** What a successful patch makes of every single group and entry: kept, dropped, moved or merged. */
module PatchFates {
  import opened Wrappers
  import opened IdOrder
  import opened Model
  import opened Forest
  import opened Tree
  import opened Rebuild
  import opened SiblingMerge
  import opened EntryMerge
  import opened EntrySurvival
  import opened MetaMerge
  import opened PatchRecords
  import opened ThreeWayPatch
  import opened PatchTheorems
  import opened FieldMerge
  import GM = GroupMerge
  import CD = CustomData
  import opened Subtrees
  import opened Clashes

  // ---- Every outcome is decided ----

  lemma OutcomesDecided(base: Vault, local: Vault, remote: Vault, result: PatchResult)
    requires Patch(base, local, remote) == Success(result)
    ensures Flattened(base, local, remote).Success?
    ensures var v := Flattened(base, local, remote).value;
      GM.AllLinked(v) && GM.AllGroupsDecided(v) && AllEntriesDecided(v)
  {
    hide Patch, Flattened, EntriesPlaced, EntriesMerged, Reconciled, GM.OneLineage, FromSurvivors, Patched, PatchedGroups,
         RebuildTree, MergedMeta, GM.AllLinked, GM.AllGroupsDecided, AllEntriesDecided;
    var v, p := PatchStages(base, local, remote, result);
    FlattenedIsOneLineage(base, local, remote);
    PatchedSteps(v, p);
    var merged := PatchedStages(v, p);
    PatchedGroupsAre(v);
  }

  // ---- Groups ----

  /** When a group was last modified, and last moved, if it carries times. */
  function ModifiedTime(g: Group): nat {
    if g.times.Some? then g.times.value.modifiedAt else 0
  }

  function MovedTime(g: Group): Option<nat> {
    if g.times.Some? then g.times.value.locationChangedAt else None
  }

  /**
    Every edit of a group all three versions hold: its title, icon, custom data
    and times follow the side that changed them. Contested edits never get this
    far: they fail the patch.
   */
  ghost predicate GroupEditsKept(base: Group, local: Group, remote: Group, merged: Group) {
    var preferLocal := ModifiedTime(local) > ModifiedTime(remote);
    && merged.id == remote.id
    && EditKept(base.title, local.title, remote.title, merged.title, preferLocal)
    && EditKept((base.iconId, base.customIconId), (local.iconId, local.customIconId),
                (remote.iconId, remote.customIconId), (merged.iconId, merged.customIconId), preferLocal)
    && (forall key :: EditKept(Get(base.customData, key), Get(local.customData, key), Get(remote.customData, key),
                               Get(merged.customData, key), preferLocal))
    && TimesKept(base.times, local.times, remote.times, merged.times, preferLocal)
  }

  /** The same times, or both none; when the group moved is its location's matter. */
  ghost predicate SameTimes(a: Option<GroupTimes>, b: Option<GroupTimes>) {
    && a.Some? == b.Some?
    && (a.Some? ==> a.value.createdAt == b.value.createdAt && a.value.modifiedAt == b.value.modifiedAt)
  }

  /**
    Where all versions carry times, or both sides added the same creation time,
    the creation time is merged by itself and the modification time is the later
    one; where some version lacks times, they are merged whole.
   */
  ghost predicate TimesKept(base: Option<GroupTimes>, local: Option<GroupTimes>, remote: Option<GroupTimes>,
                            merged: Option<GroupTimes>, preferLocal: bool) {
    if local.Some? && remote.Some? && (base.Some? || local.value.createdAt == remote.value.createdAt) then
      && merged.Some?
      && merged.value.modifiedAt
         == (if local.value.modifiedAt > remote.value.modifiedAt then local.value.modifiedAt else remote.value.modifiedAt)
      && (if base.Some? then
            EditKept(base.value.createdAt, local.value.createdAt, remote.value.createdAt, merged.value.createdAt,
                     preferLocal)
          else merged.value.createdAt == local.value.createdAt == remote.value.createdAt)
    else
      && (remote == base ==> SameTimes(merged, local))
      && (local == base ==> SameTimes(merged, remote))
      && (local != base && remote != base && local != remote ==> SameTimes(merged, if preferLocal then local else remote))
      && (local == remote ==> SameTimes(merged, local))
  }

  lemma MergedGroupKeepsEdits(base: Group, local: Group, remote: Group, movedAt: Option<nat>)
    ensures GroupEditsKept(base, local, remote, GM.MergedGroup(base, local, remote))
    ensures GroupEditsKept(base, local, remote, GM.WithMovedAt(GM.MergedGroup(base, local, remote), movedAt))
  {
    var merged := GM.MergedGroup(base, local, remote);
    hide CD.MergedUnits, CD.Units, CD.FidelityOnly, CD.Reconciled, CD.WithStamps, CD.UnitValues, Get;
    forall key
      ensures EditKept(Get(base.customData, key), Get(local.customData, key), Get(remote.customData, key),
                       Get(merged.customData, key), ModifiedTime(local) > ModifiedTime(remote))
    {
      CustomDataEdit(GM.SideOf(base), GM.SideOf(local), GM.SideOf(remote), ModifiedTime(local) > ModifiedTime(remote), key);
    }
  }

  /** Dropping fidelity slots loses no edit. */
  lemma SlotsHoldNoEdits(base: Group, local: Group, remote: Group, merged: Group, again: Group)
    requires GroupEditsKept(base, local, remote, merged) && SameButSlots(Shell(again), Shell(merged))
    ensures GroupEditsKept(base, local, remote, again)
  {
    hide EditKept;
    assert again.customData == merged.customData && again.times == merged.times;
  }

  lemma SharedGroupFields(v: GM.Versions, id: Uuid)
    requires GM.AllGroupsDecided(v) && id in v.base.groups && id in v.local.groups && id in v.remote.groups
    ensures id in GM.SurvivingGroups(v)
    ensures GroupEditsKept(v.base.groups[id].value, v.local.groups[id].value, v.remote.groups[id].value,
                           GM.SurvivingGroups(v)[id].value)
  {
    hide GroupEditsKept, GM.MergedGroup, GM.GroupConflicts, GM.WithMovedAt, MergeLocation, SubtreesEqual, InPreserved,
         PreservedSubtrees;
    var b, l, r := v.base.groups[id], v.local.groups[id], v.remote.groups[id];
    GroupSurvives(v, id);
    assert GM.GroupOutcome(v, id).value == Some(GM.MergedRecord(b, l, r));
    var movedAt := if b.parent.Some? then
        MergeLocation(b.parent.value, l.parent.value, r.parent.value, GM.GroupMovedAt(l.value),
                      GM.GroupMovedAt(r.value)).changedAt
      else None;
    MergedGroupKeepsEdits(b.value, l.value, r.value, movedAt);
  }

  lemma AddedAlikeIsRemotes(v: GM.Versions, id: Uuid)
    requires GM.AllGroupsDecided(v) && id !in v.base.groups && id in v.local.groups && id in v.remote.groups
    ensures id in GM.SurvivingGroups(v) && GM.SurvivingGroups(v)[id] == v.remote.groups[id]
  {
    hide SubtreesEqual, InPreserved, PreservedSubtrees, GM.MergedEverywhere;
    GroupSurvives(v, id);
  }

  /**
    One side's group outlives its absence on the other side: it is new there, or
    it lies in a deleted subtree inside which the keeper changed something.
   */
  ghost predicate GroupOutlives(id: Uuid, base: FlatVault, keeper: FlatVault, deleter: FlatVault) {
    && id in keeper.groups && id !in deleter.groups
    && (id in base.groups ==> KeptAlive(id, base, keeper, deleter))
  }

  lemma GroupOutcomeOf(v: GM.Versions, id: Uuid)
    requires GM.GroupOutcome(v, id).Success?
    ensures GM.GroupOutcome(v, id).value.Some? <==>
      || (id in v.local.groups && id in v.remote.groups)
      || GroupOutlives(id, v.base, v.local, v.remote) || GroupOutlives(id, v.base, v.remote, v.local)
    ensures GroupOutlives(id, v.base, v.local, v.remote) ==> GM.GroupOutcome(v, id).value == Some(v.local.groups[id])
    ensures GroupOutlives(id, v.base, v.remote, v.local) ==> GM.GroupOutcome(v, id).value == Some(v.remote.groups[id])
  {
    hide InPreserved, PreservedSubtrees, SubtreesEqual, KeptAlive, GM.MergedEverywhere;
    PreservedExactly(id, v.base, v.local, v.remote);
    PreservedExactly(id, v.base, v.remote, v.local);
  }

  lemma GroupSurvives(v: GM.Versions, id: Uuid)
    requires GM.AllGroupsDecided(v)
    ensures GM.GroupOutcome(v, id).Success?
    ensures id in GM.SurvivingGroups(v) <==> GM.GroupOutcome(v, id).value.Some?
    ensures id in GM.SurvivingGroups(v) ==> GM.SurvivingGroups(v)[id] == GM.GroupOutcome(v, id).value.value
  {
    hide InPreserved, PreservedSubtrees, SubtreesEqual, GM.MergedEverywhere;
  }

  /**
    A group is in the returned tree exactly when both sides hold it, or one side
    holds it and added it or changed something in the subtree deleted on the
    other side. A one-sided survivor stays where that side has it and, up to
    fidelity slots, as that side has it; a group both sides added alike is
    remote's; no edit and no move of a group all three versions hold is lost.
   */
  lemma GroupFate(base: Vault, local: Vault, remote: Vault, result: PatchResult, side: Version, id: Uuid)
    requires Patch(base, local, remote) == Success(result)
    ensures Flattened(base, local, remote).Success? && FlattenVault(result.vault, side).Success?
    ensures var v, again := Flattened(base, local, remote).value, FlattenVault(result.vault, side).value;
      && (id in again.groups <==>
            || (id in v.local.groups && id in v.remote.groups)
            || GroupOutlives(id, v.base, v.local, v.remote) || GroupOutlives(id, v.base, v.remote, v.local))
      && (GroupOutlives(id, v.base, v.local, v.remote) ==>
            && id in again.groups && again.groups[id].parent == v.local.groups[id].parent
            && SameButSlots(Shell(again.groups[id].value), Shell(v.local.groups[id].value)))
      && (GroupOutlives(id, v.base, v.remote, v.local) ==>
            && id in again.groups && again.groups[id].parent == v.remote.groups[id].parent
            && SameButSlots(Shell(again.groups[id].value), Shell(v.remote.groups[id].value)))
      && (id !in v.base.groups && id in v.local.groups && id in v.remote.groups ==>
            && HeldAlike(v.local, v.remote, id) && HeldAlike(v.remote, v.local, id)
            && id in again.groups && again.groups[id].parent == v.remote.groups[id].parent
            && SameButSlots(Shell(again.groups[id].value), Shell(v.remote.groups[id].value)))
      && (id in v.base.groups && id in v.local.groups && id in v.remote.groups ==>
            && id in again.groups
            && GroupEditsKept(v.base.groups[id].value, v.local.groups[id].value, v.remote.groups[id].value,
                              again.groups[id].value))
      && (id in v.base.groups && id in v.local.groups && id in v.remote.groups && id != v.base.rootId ==>
            && id in again.groups
            && GroupPlaceKept(v.base.groups[id], v.local.groups[id], v.remote.groups[id], again.groups[id]))
  {
    hide Patch, Flattened, FlattenVault, EntriesPlaced, SurvivingEntries, GM.GroupOutcome, GM.SurvivingGroups,
         GM.AllLinked, GM.AllGroupsDecided, AllEntriesDecided, GroupOutlives, DistinctGroup, SameButSlots, HeldAlike,
         GroupEditsKept, GroupPlaceKept;
    PatchHoldsSurvivors(base, local, remote, result, side);
    OutcomesDecided(base, local, remote, result);
    var v := Flattened(base, local, remote).value;
    GroupSurvives(v, id);
    GroupOutcomeOf(v, id);
    if id in v.local.groups && id in v.remote.groups {
      if id in v.base.groups {
        SharedGroupFields(v, id);
        SlotsHoldNoEdits(v.base.groups[id].value, v.local.groups[id].value, v.remote.groups[id].value,
                         GM.SurvivingGroups(v)[id].value, FlattenVault(result.vault, side).value.groups[id].value);
      } else {
        AddedAlikeIsRemotes(v, id);
        GroupFailsExactly(v, id);
      }
    }
    if id in v.base.groups && id in v.local.groups && id in v.remote.groups && id != v.base.rootId {
      SharedGroupMove(v, id);
      SlotsHoldNoPlace(v.base.groups[id], v.local.groups[id], v.remote.groups[id], GM.SurvivingGroups(v)[id],
                       FlattenVault(result.vault, side).value.groups[id]);
    }
  }

  /** The group's place is the later mover's, and the time of the move goes with it where the group carries times. */
  ghost predicate GroupPlaceKept(base: Flat<Group>, local: Flat<Group>, remote: Flat<Group>, merged: Flat<Group>) {
    exists movedAt ::
      && PlaceKept(base.parent, local.parent, remote.parent, merged.parent, MovedTime(local.value), MovedTime(remote.value),
                   movedAt)
      && (merged.value.times.Some? ==> merged.value.times.value.locationChangedAt == movedAt)
  }

  lemma SlotsHoldNoPlace(base: Flat<Group>, local: Flat<Group>, remote: Flat<Group>, merged: Flat<Group>,
                         again: Flat<Group>)
    requires GroupPlaceKept(base, local, remote, merged)
    requires again.parent == merged.parent && SameButSlots(Shell(again.value), Shell(merged.value))
    ensures GroupPlaceKept(base, local, remote, again)
  {
    hide PlaceKept;
    assert again.value.times == merged.value.times;
  }

  lemma SharedGroupMove(v: GM.Versions, id: Uuid)
    requires GM.AllLinked(v) && GM.AllGroupsDecided(v)
    requires id in v.base.groups && id in v.local.groups && id in v.remote.groups && id != v.base.rootId
    ensures id in GM.SurvivingGroups(v)
    ensures GroupPlaceKept(v.base.groups[id], v.local.groups[id], v.remote.groups[id], GM.SurvivingGroups(v)[id])
  {
    hide GM.SurvivingGroups, GM.AllGroupsDecided, GM.MergedGroup, GM.GroupConflicts;
    var b, l, r := v.base.groups[id], v.local.groups[id], v.remote.groups[id];
    GroupSurvives(v, id);
    var merged := GM.SurvivingGroups(v)[id];
    assert merged == GM.MergedRecord(b, l, r);
    var location := MergeLocation(b.parent.value, l.parent.value, r.parent.value, MovedTime(l.value), MovedTime(r.value));
    assert PlaceKept(b.parent, l.parent, r.parent, merged.parent, MovedTime(l.value), MovedTime(r.value),
                     location.changedAt);
  }

  // ---- Entries ----

  /** One side's entry outlives its absence on the other side: it is new there, changed, or its group was kept alive. */
  ghost predicate EntryOutlives(id: Uuid, base: FlatVault, keeper: FlatVault, deleter: FlatVault) {
    && id in keeper.entries && id !in deleter.entries
    && (id in base.entries ==>
          || keeper.entries[id].parent != base.entries[id].parent || keeper.entries[id].value != base.entries[id].value
          || (keeper.entries[id].parent.Some?
              && KeptAlive(keeper.entries[id].parent.value, base, keeper, deleter)))
  }

  lemma EntryOutcomeOf(v: GM.Versions, id: Uuid)
    requires EntriesPlaced(v) && EntryOutcome(v, id).Success?
    ensures EntryOutcome(v, id).value.Some? <==>
      || (id in v.local.entries && id in v.remote.entries)
      || EntryOutlives(id, v.base, v.local, v.remote) || EntryOutlives(id, v.base, v.remote, v.local)
    ensures EntryOutlives(id, v.base, v.local, v.remote) ==>
      EntryOutcome(v, id).value.Some? && EntryOutcome(v, id).value.value.record == v.local.entries[id]
    ensures EntryOutlives(id, v.base, v.remote, v.local) ==>
      EntryOutcome(v, id).value.Some? && EntryOutcome(v, id).value.value.record == v.remote.entries[id]
    ensures id !in v.base.entries && id in v.local.entries && id in v.remote.entries ==>
      EntryOutcome(v, id).value.Some? && EntryOutcome(v, id).value.value.record == v.remote.entries[id]
    ensures id in v.base.entries && id in v.local.entries && id in v.remote.entries ==>
      EntryOutcome(v, id).value == Some(MergedRecord(v.base.entries[id], v.local.entries[id], v.remote.entries[id]))
  {
    hide MergedRecord, InPreserved, PreservedSubtrees, KeptAlive;
    if id in v.local.entries && v.local.entries[id].parent.Some? {
      PreservedExactly(v.local.entries[id].parent.value, v.base, v.local, v.remote);
    }
    if id in v.remote.entries && v.remote.entries[id].parent.Some? {
      PreservedExactly(v.remote.entries[id].parent.value, v.base, v.remote, v.local);
    }
  }

  lemma EntrySurvives(v: GM.Versions, id: Uuid)
    requires EntriesPlaced(v) && AllEntriesDecided(v)
    ensures EntryOutcome(v, id).Success?
    ensures id in SurvivingEntries(v) <==> EntryOutcome(v, id).value.Some?
    ensures id in SurvivingEntries(v) ==> SurvivingEntries(v)[id] == EntryOutcome(v, id).value.value.record
  {
    hide MergedRecord, OutlivesDeletion;
  }

  /**
    An entry is in the returned tree exactly when both sides hold it, or one side
    holds it and added it, changed it, or kept its group alive by changing
    something there. A one-sided survivor is exactly that side's entry in that
    side's group; an entry both sides added alike is remote's. An entry held by
    all three versions is their merge, and no move of it is lost.
   */
  lemma EntryFate(base: Vault, local: Vault, remote: Vault, result: PatchResult, side: Version, id: Uuid)
    requires Patch(base, local, remote) == Success(result)
    ensures Flattened(base, local, remote).Success? && FlattenVault(result.vault, side).Success?
    ensures var v, again := Flattened(base, local, remote).value, FlattenVault(result.vault, side).value;
      && (id in again.entries <==>
            || (id in v.local.entries && id in v.remote.entries)
            || EntryOutlives(id, v.base, v.local, v.remote) || EntryOutlives(id, v.base, v.remote, v.local))
      && (EntryOutlives(id, v.base, v.local, v.remote) ==>
            && id in again.entries && again.entries[id].value == v.local.entries[id].value
            && again.entries[id].parent == v.local.entries[id].parent)
      && (EntryOutlives(id, v.base, v.remote, v.local) ==>
            && id in again.entries && again.entries[id].value == v.remote.entries[id].value
            && again.entries[id].parent == v.remote.entries[id].parent)
      && (id !in v.base.entries && id in v.local.entries && id in v.remote.entries ==>
            && v.local.entries[id].parent == v.remote.entries[id].parent
            && v.local.entries[id].value == v.remote.entries[id].value
            && id in again.entries && again.entries[id].value == v.remote.entries[id].value
            && again.entries[id].parent == v.remote.entries[id].parent)
      && (id in v.base.entries && id in v.local.entries && id in v.remote.entries ==>
            && id in again.entries
            && SharedEntryKept(v.base.entries[id], v.local.entries[id], v.remote.entries[id], again.entries[id])
            && again.entries[id].value
               == MergedRecord(v.base.entries[id], v.local.entries[id], v.remote.entries[id]).record.value)
  {
    hide Patch, Flattened, FlattenVault, EntriesPlaced, EntryOutcome, GM.SurvivingGroups, SurvivingEntries,
         GM.AllLinked, GM.AllGroupsDecided, AllEntriesDecided, MergedRecord, EntryOutlives, DistinctGroup,
         SharedEntryKept, SameButSlots;
    PatchHoldsSurvivors(base, local, remote, result, side);
    OutcomesDecided(base, local, remote, result);
    var v := Flattened(base, local, remote).value;
    EntrySurvives(v, id);
    EntryOutcomeOf(v, id);
    EntryFailsExactly(v, id);
    if id in v.base.entries && id in v.local.entries && id in v.remote.entries {
      SharedEntry(v, id, FlattenVault(result.vault, side).value.entries[id]);
    }
  }

  /** No edit, no move and no losing version of an entry all three versions hold is lost. */
  ghost predicate SharedEntryKept(base: Flat<Entry>, local: Flat<Entry>, remote: Flat<Entry>, merged: Flat<Entry>) {
    && EntryEditsKept(base.value, local.value, remote.value, merged.value)
    && HistoryKept(base, local, remote, merged.value.history)
    && PlaceKept(base.parent, local.parent, remote.parent, merged.parent,
                 local.value.locationChangedAt, remote.value.locationChangedAt, merged.value.locationChangedAt)
  }

  lemma SharedEntry(v: GM.Versions, id: Uuid, merged: Flat<Entry>)
    requires EntriesPlaced(v) && id in v.base.entries && id in v.local.entries && id in v.remote.entries
    requires var record := MergedRecord(v.base.entries[id], v.local.entries[id], v.remote.entries[id]).record;
      merged.value == record.value && merged.parent == record.parent
    ensures SharedEntryKept(v.base.entries[id], v.local.entries[id], v.remote.entries[id], merged)
  {
    hide MergedRecord, EntryEditsKept, HistoryKept, LosersRequired, PlaceKept;
    NoLostEdit(v.base.entries[id], v.local.entries[id], v.remote.entries[id]);
  }

  /** The caller must store exactly the losing versions. */
  lemma RequiredFate(base: Vault, local: Vault, remote: Vault, result: PatchResult)
    requires Patch(base, local, remote) == Success(result)
    ensures Flattened(base, local, remote).Success?
    ensures var v := Flattened(base, local, remote).value;
      forall r :: r in result.required <==> LosesTo(v, r)
  {
    hide Flattened, Patched, RebuildTree, MergedMeta, Patch, GM.OneLineage, FromSurvivors, EntriesPlaced, SurvivingEntries,
         GM.SurvivingGroups, Reconciled, RequiredSnapshots, FirstEntryError, LosesTo, Keyed;
    var v, p := PatchStages(base, local, remote, result);
    FlattenedIsOneLineage(base, local, remote);
    var merged := PatchedStages(v, p);
    LineageIsKeyed(v);
    RequiredExactly(v);
  }
}
