/** The patch on flattened vaults: groups, then entries, each merged and put in order. */
module PatchRecords {
  import opened Wrappers
  import opened IdOrder
  import opened Model
  import opened Forest
  import opened Tree
  import opened Siblings
  import opened Rebuild
  import opened SiblingMerge
  import opened GroupHierarchy
  import opened EntryMerge
  import opened EntrySurvival
  import GM = GroupMerge

  function GroupSides(v: Versions): Sides<Group> {
    Sides(GroupObject, v.base.groups, v.local.groups, v.remote.groups, GM.GroupMovedAt)
  }

  function EntryMovedAt(e: Entry): Option<nat> {
    e.locationChangedAt
  }

  function EntrySides(v: Versions): Sides<Entry> {
    Sides(EntryObject, v.base.entries, v.local.entries, v.remote.entries, EntryMovedAt)
  }

  /** Groups merged, ordered among their siblings and checked to form one tree. */
  function PatchedGroups(v: Versions): Result<Records<Group>, PatchError> {
    var merged :- GM.GroupsMerged(v);
    var ordered :- Reconciled(GroupSides(v), merged);
    :- ValidateHierarchy(v.base.rootId, ordered);
    Success(ordered)
  }

  datatype PatchedRecords = PatchedRecords(groups: Records<Group>, entries: Records<Entry>, required: seq<RequiredSnapshot>)

  function Patched(v: Versions): Result<PatchedRecords, PatchError>
    requires EntriesPlaced(v)
  {
    var groups :- PatchedGroups(v);
    var merged :- EntriesMerged(v, groups);
    var entries :- Reconciled(EntrySides(v), merged.records);
    Success(PatchedRecords(groups, entries, merged.required))
  }

  function FlatOf(v: Versions, p: PatchedRecords): FlatVault {
    FlatVault(v.base.rootId, p.groups, p.entries)
  }

  // ---- What a failure means ----

  lemma LineageIsHoused(v: Versions)
    requires GM.OneLineage(v)
    ensures EntriesPlaced(v) && EntriesHoused(v)
  {
  }

  lemma LineageIsKeyed(v: Versions)
    requires GM.OneLineage(v)
    ensures Keyed(v.base) && Keyed(v.local) && Keyed(v.remote)
  {
  }

  /** Groups fail on conflicting contents, on sibling orders, or on a cycle that both sides had to build. */
  lemma GroupFailures(v: Versions)
    requires GM.OneLineage(v) && PatchedGroups(v).Failure?
    ensures var e := PatchedGroups(v).error;
      || ((e.ConcurrentObjectAddition? || e.FidelityConflict?) && !GM.AllGroupsDecided(v))
      || e.SiblingOrderChange?
      || (e.GroupCycle? && GM.AllGroupsDecided(v)
          && !KeepsParents(v, v.local.groups) && !KeepsParents(v, v.remote.groups))
  {
    hide GM.SurvivingGroups, GM.GroupsMerged, Reconciled, ValidateHierarchy;
    GM.LineageIsLinked(v);
    GM.GroupsNeverOrphaned(v);
    if GM.AllGroupsDecided(v) {
      var merged := GM.SurvivingGroups(v);
      ReconciledIsExact(GroupSides(v), merged);
      var ordered := Reconciled(GroupSides(v), merged);
      if ordered.Success? {
        SameRootedness(ordered.value, merged, v.base.rootId);
        ValidateIsExact(v.base.rootId, ordered.value);
        if KeepsParents(v, v.local.groups) || KeepsParents(v, v.remote.groups) {
          CycleNeedsBothSides(v);
        }
      }
    }
  }

  lemma PatchedGroupsAre(v: Versions)
    requires GM.OneLineage(v) && PatchedGroups(v).Success?
    ensures GM.AllLinked(v) && GM.AllGroupsDecided(v)
    ensures var groups := PatchedGroups(v).value;
      SamePlaces(groups, GM.SurvivingGroups(v)) && DenseOrders(groups) && Rooted(groups, v.base.rootId)
  {
    hide GM.SurvivingGroups, GM.GroupsMerged, Reconciled, ValidateHierarchy;
    GM.LineageIsLinked(v);
    GM.GroupsNeverOrphaned(v);
    var merged := GM.SurvivingGroups(v);
    ReconciledIsExact(GroupSides(v), merged);
    var ordered := Reconciled(GroupSides(v), merged).value;
    ValidateIsExact(v.base.rootId, ordered);
  }

  /** The record of the common root keeps position 0. */
  lemma RootStaysFirst(v: Versions)
    requires GM.OneLineage(v) && PatchedGroups(v).Success?
    ensures v.base.rootId in PatchedGroups(v).value && PatchedGroups(v).value[v.base.rootId].order == 0
  {
    hide GM.SurvivingGroups, GM.GroupsMerged, Reconciled, ValidateHierarchy, GM.OneLineage, DenseOrders, Rooted;
    PatchedGroupsAre(v);
    GM.GroupsNeverOrphaned(v);
    SurvivingRoot(v);
    ReconciledIsExact(GroupSides(v), GM.SurvivingGroups(v));
  }

  lemma SurvivingRoot(v: Versions)
    requires GM.OneLineage(v) && GM.AllGroupsDecided(v)
    ensures var root := v.base.rootId;
      root in GM.SurvivingGroups(v) && GM.SurvivingGroups(v)[root].parent.None? && GM.SurvivingGroups(v)[root].order == 0
  {
    hide GM.MergedGroup, GM.GroupConflicts, DenseOrders;
    var root := v.base.rootId;
    assert GM.GroupOutcome(v, root).Success?;
    assert GM.GroupOutcome(v, root)
        == Success(Some(GM.MergedRecord(v.base.groups[root], v.local.groups[root], v.remote.groups[root])));
  }

  lemma SurvivorsKeyed(v: Versions)
    requires Keyed(v.base) && Keyed(v.local) && Keyed(v.remote)
    ensures forall id :: id in GM.SurvivingGroups(v) ==> GM.SurvivingGroups(v)[id].value.id == id
  {
    hide GM.GroupConflicts, GM.MergedTimes;
    forall id | id in GM.SurvivingGroups(v) ensures GM.SurvivingGroups(v)[id].value.id == id {
      if id in v.base.groups && id in v.local.groups && id in v.remote.groups {
        assert GM.GroupOutcome(v, id)
            == Success(Some(GM.MergedRecord(v.base.groups[id], v.local.groups[id], v.remote.groups[id])));
      }
    }
  }

  lemma MergedRecordIsKeyed(base: Flat<Entry>, local: Flat<Entry>, remote: Flat<Entry>)
    requires base.parent.Some? && local.parent.Some? && remote.parent.Some?
    ensures MergedRecord(base, local, remote).record.value.id == remote.value.id
  {
    NoLostEdit(base, local, remote);
  }

  lemma SurvivingEntriesKeyed(v: Versions)
    requires EntriesPlaced(v) && Keyed(v.base) && Keyed(v.local) && Keyed(v.remote)
    ensures forall id :: id in SurvivingEntries(v) ==> SurvivingEntries(v)[id].value.id == id
  {
    hide MergedRecord, OutlivesDeletion;
    forall id | id in SurvivingEntries(v) ensures SurvivingEntries(v)[id].value.id == id {
      if id in v.base.entries && id in v.local.entries && id in v.remote.entries {
        MergedRecordIsKeyed(v.base.entries[id], v.local.entries[id], v.remote.entries[id]);
      }
    }
  }

  lemma AssembledIsWellFormed(flat: FlatVault, groups: Records<Group>, entries: Records<Entry>)
    requires SamePlaces(flat.groups, groups) && SamePlaces(flat.entries, entries)
    requires forall id :: id in groups ==> groups[id].value.id == id
    requires forall id :: id in entries ==> entries[id].value.id == id
    requires Rooted(flat.groups, flat.rootId) && flat.groups[flat.rootId].order == 0
    requires forall id :: id in entries ==> entries[id].parent.Some? && entries[id].parent.value in flat.groups
    requires DenseOrders(flat.groups) && DenseOrders(flat.entries)
    ensures WellFormed(flat)
  {
    hide DenseOrders, IsBelow;
  }

  /** The patched records are the survivors, each under a surviving group, in dense sibling orders. */
  ghost predicate FromSurvivors(v: Versions, p: PatchedRecords)
    requires EntriesPlaced(v)
  {
    && SamePlaces(p.groups, GM.SurvivingGroups(v)) && DenseOrders(p.groups) && Rooted(p.groups, v.base.rootId)
    && SamePlaces(p.entries, SurvivingEntries(v)) && DenseOrders(p.entries)
    && (forall id :: id in p.entries ==> p.entries[id].parent.Some? && p.entries[id].parent.value in p.groups)
  }

  lemma PatchedStages(v: Versions, p: PatchedRecords) returns (merged: Records<Entry>)
    requires EntriesPlaced(v) && Patched(v) == Success(p)
    ensures PatchedGroups(v) == Success(p.groups)
    ensures EntriesMerged(v, p.groups) == Success(MergedEntries(merged, p.required))
    ensures Reconciled(EntrySides(v), merged) == Success(p.entries)
  {
    hide PatchedGroups, EntriesMerged, Reconciled;
    merged := EntriesMerged(v, p.groups).value.records;
  }

  lemma PatchedSteps(v: Versions, p: PatchedRecords)
    requires GM.OneLineage(v) && EntriesPlaced(v) && Patched(v) == Success(p)
    ensures FromSurvivors(v, p)
    ensures AllEntriesDecided(v)
  {
    hide GM.SurvivingGroups, SurvivingEntries, Reconciled, PatchedGroups, EntriesMerged, DenseOrders, Rooted,
         GM.OneLineage, Patched, AllEntriesDecided;
    LineageIsHoused(v);
    var merged := PatchedStages(v, p);
    PatchedGroupsAre(v);
    EntriesNeverOrphaned(v, p.groups);
    ReconciledIsExact(EntrySides(v), merged);
  }

  /** A successful patch is a well-formed flat vault. */
  lemma PatchedIsWellFormed(v: Versions, p: PatchedRecords)
    requires GM.OneLineage(v) && EntriesPlaced(v) && Patched(v) == Success(p)
    ensures WellFormed(FlatOf(v, p))
  {
    hide GM.SurvivingGroups, SurvivingEntries, Patched, PatchedGroups, EntriesMerged, DenseOrders, Rooted, WellFormed,
         GM.OneLineage, Reconciled;
    var merged := PatchedStages(v, p);
    PatchedSteps(v, p);
    RootStaysFirst(v);
    LineageIsKeyed(v);
    SurvivorsKeyed(v);
    SurvivingEntriesKeyed(v);
    AssembledIsWellFormed(FlatOf(v, p), GM.SurvivingGroups(v), SurvivingEntries(v));
  }

  /** Every failure of the flat patch, and what the inputs must look like for it. */
  lemma PatchFailures(v: Versions)
    requires GM.OneLineage(v) && EntriesPlaced(v) && Patched(v).Failure?
    ensures var e := Patched(v).error;
      || e.ConcurrentObjectAddition? || e.FidelityConflict? || e.SiblingOrderChange?
      || (e.GroupCycle? && !KeepsParents(v, v.local.groups) && !KeepsParents(v, v.remote.groups))
  {
    hide GM.SurvivingGroups, SurvivingEntries, Reconciled, PatchedGroups, EntriesMerged;
    if PatchedGroups(v).Failure? {
      GroupFailures(v);
    } else {
      var groups := PatchedGroups(v).value;
      PatchedGroupsAre(v);
      LineageIsHoused(v);
      EntriesNeverOrphaned(v, groups);
      if EntriesMerged(v, groups).Success? {
        ReconciledIsExact(EntrySides(v), SurvivingEntries(v));
      }
    }
  }
}
