/** The loops that merge all groups and all entries, one identifier at a time. */
module RecordLoops {
  import opened Wrappers
  import opened IdOrder
  import opened Model
  import opened FieldMerge
  import opened Forest
  import opened Tree
  import opened Normalize
  import opened SiblingMerge
  import opened Subtrees
  import opened SubtreeWalks
  import opened EntryMerge
  import opened EntrySurvival
  import opened RecordMerge
  import GM = GroupMerge

  // ---- Groups ----

  /** The fields of a group all three versions hold, then its place. */
  method MergeSharedGroup(base: Flat<Group>, local: Flat<Group>, remote: Flat<Group>, id: Uuid)
    returns (result: Result<Flat<Group>, PatchError>)
    ensures result == GM.MergedEverywhere(base, local, remote, id)
  {
    hide GM.GroupConflicts, GM.MergedGroup, MergeLocation, GM.WithMovedAt;
    var fields := MergeGroupFields(id, base.value, local.value, remote.value);
    if fields.Failure? {
      return Failure(fields.error);
    }
    var merged := fields.value;
    if base.parent.None? && local.parent.None? && remote.parent.None? {
      return Success(Flat(merged, None, remote.order));
    }
    if base.parent.Some? && local.parent.Some? && remote.parent.Some? {
      var location := MergeLocation(base.parent.value, local.parent.value, remote.parent.value,
                                    GM.GroupMovedAt(local.value), GM.GroupMovedAt(remote.value));
      return Success(Flat(GM.WithMovedAt(merged, location.changedAt), Some(location.parent),
                          if location.prefersLocal then local.order else remote.order));
    }
    return Failure(RootLineageMismatch);
  }

  /** One group, given the subtrees each side preserves. */
  method MergeGroup(v: Versions, id: Uuid, locally: set<Uuid>, remotely: set<Uuid>)
    returns (outcome: Result<Option<Flat<Group>>, PatchError>)
    requires locally == GM.LocallyPreserved(v) && remotely == GM.RemotelyPreserved(v)
    ensures outcome == GM.GroupOutcome(v, id)
  {
    hide GM.MergedEverywhere, SubtreesEqual, InPreserved, PreservedSubtrees;
    var b, l, r := v.base.groups, v.local.groups, v.remote.groups;
    if id in b && id in l && id in r {
      var merged := MergeSharedGroup(b[id], l[id], r[id], id);
      return if merged.Success? then Success(Some(merged.value)) else Failure(merged.error);
    }
    if id in b {
      var kept := false;
      if id in l {
        kept := BelongsToPreserved(id, v.local, locally);
        return Success(if kept then Some(l[id]) else None);
      }
      if id in r {
        kept := BelongsToPreserved(id, v.remote, remotely);
      }
      return Success(if kept then Some(r[id]) else None);
    }
    if id in l && id in r {
      var alike := CompareSubtrees(v.local, v.remote, id);
      return if alike then Success(Some(r[id])) else Failure(ConcurrentObjectAddition(id));
    }
    return if id in l then Success(Some(l[id])) else Success(Get(r, id));
  }

  method MergeGroups(v: Versions) returns (result: Result<Records<Group>, PatchError>)
    ensures result == GM.GroupsMerged(v)
  {
    hide GM.GroupOutcome, GM.SurvivingGroups, GM.MergedSoFar, GM.FirstOrphan;
    GM.NothingMerged(v);
    var locally := FindPreserved(v.base, v.local, v.remote);
    var remotely := FindPreserved(v.base, v.remote, v.local);
    var ids := Ascending(GM.AllGroups(v));
    var merged: Records<Group> := map[];
    for i := 0 to |ids|
      invariant GM.FirstGroupError(v, ids[i..]) == GM.FirstGroupError(v, ids)
      invariant GM.MergedSoFar(v, merged, ids[..i])
    {
      GM.MergeStep(v, merged, ids, i);
      var outcome := MergeGroup(v, ids[i], locally, remotely);
      if outcome.Failure? {
        return Failure(outcome.error);
      }
      if outcome.value.Some? {
        merged := merged[ids[i] := outcome.value.value];
      }
    }
    assert ids[..|ids|] == ids;
    GM.AllMerged(v, merged);
    var orphan := GM.FindOrphan(merged);
    return if orphan.Pass? then Success(merged) else Failure(orphan.error);
  }

  // ---- Entries ----

  /** The fields of an entry all three versions hold, then its place; a contested place costs a snapshot. */
  method MergeSharedEntry(base: Flat<Entry>, local: Flat<Entry>, remote: Flat<Entry>) returns (result: EntryResult)
    requires base.parent.Some? && local.parent.Some? && remote.parent.Some?
    ensures result == MergedRecord(base, local, remote)
  {
    hide MergedEntry, MergeLocation, HistorySnapshot, AppendMissing, EntryConflicts;
    var value := MergeEntry(base.value, local.value, remote.value);
    var required := RequiredForFields(base.value, local.value, remote.value);
    var location := EntryLocation(base, local, remote);
    value := value.(locationChangedAt := location.changedAt);
    if location.conflict {
      var snapshot := PrepareHistorySnapshot(DisplacedVersion(location, local.value, remote.value));
      value := value.(history := AppendMissing(value.history, [snapshot]));
      required := required + [RequiredSnapshot(remote.value.id, snapshot)];
    }
    return EntryResult(Flat(value, Some(location.parent), if location.prefersLocal then local.order else remote.order),
                       required);
  }

  method FindOutlived(base: Flat<Entry>, kept: Flat<Entry>, survivor: FlatVault, preserved: set<Uuid>)
    returns (outlives: bool)
    ensures outlives == OutlivesDeletion(base, kept, survivor, preserved)
  {
    hide InPreserved;
    if !SameRecord(base, kept) {
      return true;
    }
    if kept.parent.None? {
      return false;
    }
    outlives := BelongsToPreserved(kept.parent.value, survivor, preserved);
  }

  /** One entry, given the subtrees each side preserves. */
  method MergeOneEntry(v: Versions, id: Uuid, locally: set<Uuid>, remotely: set<Uuid>)
    returns (outcome: Result<Option<EntryResult>, PatchError>)
    requires EntriesPlaced(v) && locally == GM.LocallyPreserved(v) && remotely == GM.RemotelyPreserved(v)
    ensures outcome == EntryOutcome(v, id)
  {
    hide MergedRecord, OutlivesDeletion, SameRecord, PreservedSubtrees;
    var b, l, r := v.base.entries, v.local.entries, v.remote.entries;
    if id in b && id in l && id in r {
      var merged := MergeSharedEntry(b[id], l[id], r[id]);
      return Success(Some(merged));
    }
    if id in b {
      var kept := false;
      if id in l {
        kept := FindOutlived(b[id], l[id], v.local, locally);
        return Success(if kept then Some(Unmerged(l[id])) else None);
      }
      if id in r {
        kept := FindOutlived(b[id], r[id], v.remote, remotely);
      }
      return Success(if kept then Some(Unmerged(r[id])) else None);
    }
    if id in l && id in r {
      return if SameRecord(l[id], r[id]) then Success(Some(Unmerged(r[id]))) else Failure(ConcurrentObjectAddition(id));
    }
    return if id in l then Success(Some(Unmerged(l[id])))
           else if id in r then Success(Some(Unmerged(r[id])))
           else Success(None);
  }

  method MergeEntries(v: Versions, groups: Records<Group>) returns (result: Result<MergedEntries, PatchError>)
    requires EntriesPlaced(v)
    ensures result == EntriesMerged(v, groups)
  {
    hide EntryOutcome, AppendMissing, SurvivingEntries, RequiredSnapshots, EntrySurvival.MergedSoFar;
    NothingMerged(v);
    var locally := FindPreserved(v.base, v.local, v.remote);
    var remotely := FindPreserved(v.base, v.remote, v.local);
    var ids := Ascending(AllEntries(v));
    var merged: Records<Entry> := map[];
    var required: seq<RequiredSnapshot> := [];
    for i := 0 to |ids|
      invariant FirstEntryError(v, groups, ids[i..]) == FirstEntryError(v, groups, ids)
      invariant EntrySurvival.MergedSoFar(v, merged, ids[..i])
      invariant required == RequiredSnapshots(v, ids[..i])
    {
      EntrySurvival.MergeStep(v, groups, merged, ids, i);
      var outcome := MergeOneEntry(v, ids[i], locally, remotely);
      if outcome.Failure? {
        return Failure(outcome.error);
      }
      if outcome.value.Some? {
        var kept := outcome.value.value;
        if kept.record.parent.None? || kept.record.parent.value !in groups {
          return Failure(MissingParent(kept.record.parent.GetOr(ids[i])));
        }
        required := AppendMissing(required, kept.required);
        merged := merged[ids[i] := kept.record];
      } else {
        required := AppendMissing(required, []);
      }
    }
    assert ids[..|ids|] == ids;
    MergeDone(v, groups, merged);
    return Success(MergedEntries(merged, required));
  }
}
