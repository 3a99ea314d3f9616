/** Which entries survive the merge, and why none of them is left without a group. */
module EntrySurvival {
  import opened Wrappers
  import opened IdOrder
  import opened Model
  import opened FieldMerge
  import opened Forest
  import opened Tree
  import opened Rebuild
  import opened SiblingMerge
  import opened Subtrees
  import GM = GroupMerge
  import opened EntryMerge
  import opened Normalize

  type Versions = GM.Versions

  /** Every entry is filed under some group. */
  predicate EntriesPlaced(v: Versions) {
    && (forall id | id in v.base.entries :: v.base.entries[id].parent.Some?)
    && (forall id | id in v.local.entries :: v.local.entries[id].parent.Some?)
    && (forall id | id in v.remote.entries :: v.remote.entries[id].parent.Some?)
  }

  function Unmerged(f: Flat<Entry>): EntryResult {
    EntryResult(f, [])
  }

  /** An entry one side deleted survives when the other side changed it or kept its group alive. */
  predicate OutlivesDeletion(base: Flat<Entry>, kept: Flat<Entry>, survivor: FlatVault, preserved: set<Uuid>) {
    !SameRecord(base, kept) || (kept.parent.Some? && InPreserved(kept.parent.value, survivor, preserved))
  }

  /** What becomes of one entry identifier: kept as some record, dropped, or an error. */
  function EntryOutcome(v: Versions, id: Uuid): Result<Option<EntryResult>, PatchError>
    requires EntriesPlaced(v)
  {
    var b, l, r := v.base.entries, v.local.entries, v.remote.entries;
    if id !in b then
      if id in l && id in r then
        if SameRecord(l[id], r[id]) then Success(Some(Unmerged(r[id]))) else Failure(ConcurrentObjectAddition(id))
      else if id in l then Success(Some(Unmerged(l[id])))
      else if id in r then Success(Some(Unmerged(r[id])))
      else Success(None)
    else if id in l && id in r then Success(Some(MergedRecord(b[id], l[id], r[id])))
    else if id in l && OutlivesDeletion(b[id], l[id], v.local, GM.LocallyPreserved(v)) then
      Success(Some(Unmerged(l[id])))
    else if id in r && OutlivesDeletion(b[id], r[id], v.remote, GM.RemotelyPreserved(v)) then
      Success(Some(Unmerged(r[id])))
    else Success(None)
  }

  function AllEntries(v: Versions): set<Uuid> {
    UnionKeys(v.base.entries, v.local.entries, v.remote.entries)
  }

  /** The error of one identifier: its own, or that its group is gone. */
  function EntryError(v: Versions, groups: Records<Group>, id: Uuid): Outcome<PatchError>
    requires EntriesPlaced(v)
  {
    match EntryOutcome(v, id)
    case Failure(e) => Fail(e)
    case Success(None) => Pass
    case Success(Some(kept)) =>
      if kept.record.parent.Some? && kept.record.parent.value in groups then Pass
      else Fail(MissingParent(kept.record.parent.GetOr(id)))
  }

  function FirstEntryError(v: Versions, groups: Records<Group>, ids: seq<Uuid>): Outcome<PatchError>
    requires EntriesPlaced(v)
  {
    if ids == [] then Pass
    else if EntryError(v, groups, ids[0]).Fail? then EntryError(v, groups, ids[0])
    else FirstEntryError(v, groups, ids[1..])
  }

  function SurvivingEntries(v: Versions): Records<Entry>
    requires EntriesPlaced(v)
  {
    map id | id in AllEntries(v) && EntryOutcome(v, id).Success? && EntryOutcome(v, id).value.Some?
      :: EntryOutcome(v, id).value.value.record
  }

  function RequiredOf(v: Versions, id: Uuid): seq<RequiredSnapshot>
    requires EntriesPlaced(v)
  {
    match EntryOutcome(v, id)
    case Success(Some(kept)) => kept.required
    case _ => []
  }

  /** The snapshots all merged entries require, each once, in the order they arise. */
  function RequiredSnapshots(v: Versions, ids: seq<Uuid>): seq<RequiredSnapshot>
    requires EntriesPlaced(v)
  {
    if ids == [] then []
    else AppendMissing(RequiredSnapshots(v, ids[..|ids| - 1]), RequiredOf(v, ids[|ids| - 1]))
  }

  datatype MergedEntries = MergedEntries(records: Records<Entry>, required: seq<RequiredSnapshot>)

  function EntriesMerged(v: Versions, groups: Records<Group>): Result<MergedEntries, PatchError>
    requires EntriesPlaced(v)
  {
    var ids := Ascending(AllEntries(v));
    match FirstEntryError(v, groups, ids)
    case Fail(e) => Failure(e)
    case Pass => Success(MergedEntries(SurvivingEntries(v), RequiredSnapshots(v, ids)))
  }

  // ---- Every surviving entry's group survives ----

  lemma LocalHomeSurvives(v: Versions, id: Uuid, parent: Uuid)
    requires GM.AllLinked(v) && GM.AllGroupsDecided(v)
    requires id in v.local.entries && v.local.entries[id].parent == Some(parent) && parent in v.local.groups
    requires Differs(v.local.entries, v.base.entries, id) || InPreserved(parent, v.local, GM.LocallyPreserved(v))
    ensures parent in GM.SurvivingGroups(v)
  {
    if parent in v.base.groups && parent !in v.remote.groups && Differs(v.local.entries, v.base.entries, id) {
      ChangedEntryPreserves(v.base, v.local, v.remote, id, parent);
    }
    assert GM.GroupOutcome(v, parent).Success? && GM.GroupOutcome(v, parent).value.Some?;
  }

  lemma RemoteHomeSurvives(v: Versions, id: Uuid, parent: Uuid)
    requires GM.AllLinked(v) && GM.AllGroupsDecided(v)
    requires id in v.remote.entries && v.remote.entries[id].parent == Some(parent) && parent in v.remote.groups
    requires Differs(v.remote.entries, v.base.entries, id) || InPreserved(parent, v.remote, GM.RemotelyPreserved(v))
    ensures parent in GM.SurvivingGroups(v)
  {
    if parent in v.base.groups && parent !in v.local.groups && Differs(v.remote.entries, v.base.entries, id) {
      ChangedEntryPreserves(v.base, v.remote, v.local, id, parent);
    }
    assert GM.GroupOutcome(v, parent).Success? && GM.GroupOutcome(v, parent).value.Some?;
  }

  /** Entries are filed under groups of their own version. */
  ghost predicate EntriesHoused(v: Versions) {
    && (forall id :: id in v.base.entries ==>
          v.base.entries[id].parent.Some? && v.base.entries[id].parent.value in v.base.groups)
    && (forall id :: id in v.local.entries ==>
          v.local.entries[id].parent.Some? && v.local.entries[id].parent.value in v.local.groups)
    && (forall id :: id in v.remote.entries ==>
          v.remote.entries[id].parent.Some? && v.remote.entries[id].parent.value in v.remote.groups)
  }

  /** The home of an entry held by all three versions is one side's, and that side moved it there or both have it. */
  lemma MergedHomeSurvives(v: Versions, id: Uuid)
    requires GM.AllLinked(v) && GM.AllGroupsDecided(v) && EntriesPlaced(v) && EntriesHoused(v)
    requires id in v.base.entries && id in v.local.entries && id in v.remote.entries
    ensures EntryLocation(v.base.entries[id], v.local.entries[id], v.remote.entries[id]).parent in GM.SurvivingGroups(v)
  {
    hide GM.SurvivingGroups;
    var location := EntryLocation(v.base.entries[id], v.local.entries[id], v.remote.entries[id]);
    var l, r := v.local.entries[id].parent.value, v.remote.entries[id].parent.value;
    if location.parent == r {
      if r in v.local.groups {
        GM.SharedGroupSurvives(v, r);
      } else {
        RemoteHomeSurvives(v, id, r);
      }
    } else if l in v.remote.groups {
      GM.SharedGroupSurvives(v, l);
    } else {
      LocalHomeSurvives(v, id, l);
    }
  }

  lemma EntryHomeSurvives(v: Versions, id: Uuid)
    requires GM.AllLinked(v) && GM.AllGroupsDecided(v) && EntriesPlaced(v) && EntriesHoused(v)
    requires EntryOutcome(v, id).Success? && EntryOutcome(v, id).value.Some?
    ensures var record := EntryOutcome(v, id).value.value.record;
      record.parent.Some? && record.parent.value in GM.SurvivingGroups(v)
  {
    hide GM.SurvivingGroups, MergedEntry, HistorySnapshot;
    if id in v.base.entries && id in v.local.entries && id in v.remote.entries {
      MergedHomeSurvives(v, id);
    } else if id in v.remote.entries {
      RemoteHomeSurvives(v, id, v.remote.entries[id].parent.value);
    } else {
      LocalHomeSurvives(v, id, v.local.entries[id].parent.value);
    }
  }

  lemma {:induction false} FirstEntryErrorIsExact(v: Versions, groups: Records<Group>, ids: seq<Uuid>)
    requires EntriesPlaced(v)
    ensures var r := FirstEntryError(v, groups, ids);
      && (r.Pass? <==> forall id :: id in ids ==> EntryError(v, groups, id).Pass?)
      && (r.Fail? ==> exists id :: id in ids && EntryError(v, groups, id) == r)
  {
    hide EntryError;
    if ids != [] {
      FirstEntryErrorIsExact(v, groups, ids[1..]);
      assert ids == [ids[0]] + ids[1..];
    }
  }

  lemma EntryErrorIsConflict(v: Versions, groups: Records<Group>, id: Uuid)
    requires GM.AllLinked(v) && GM.AllGroupsDecided(v) && EntriesPlaced(v) && EntriesHoused(v)
    requires groups.Keys == GM.SurvivingGroups(v).Keys
    ensures EntryError(v, groups, id) ==
      match EntryOutcome(v, id)
      case Failure(_) => Fail(ConcurrentObjectAddition(id))
      case Success(_) => Pass
  {
    hide GM.SurvivingGroups, MergedEntry, HistorySnapshot;
    if EntryOutcome(v, id).Success? && EntryOutcome(v, id).value.Some? {
      EntryHomeSurvives(v, id);
    }
  }

  ghost predicate AllEntriesDecided(v: Versions)
    requires EntriesPlaced(v)
  {
    forall id :: id in AllEntries(v) ==> EntryOutcome(v, id).Success?
  }

  lemma ErrorsMatchOutcomes(v: Versions, groups: Records<Group>)
    requires GM.AllLinked(v) && GM.AllGroupsDecided(v) && EntriesPlaced(v) && EntriesHoused(v)
    requires groups.Keys == GM.SurvivingGroups(v).Keys
    ensures var first := FirstEntryError(v, groups, Ascending(AllEntries(v)));
      && (first.Pass? <==> AllEntriesDecided(v))
      && (first.Fail? ==> exists id :: id in AllEntries(v) && first == Fail(ConcurrentObjectAddition(id)))
  {
    hide GM.SurvivingGroups, EntryError, EntryOutcome;
    var ids := Ascending(AllEntries(v));
    assert forall id :: id in ids <==> id in Elements(ids);
    FirstEntryErrorIsExact(v, groups, ids);
    forall id ensures EntryError(v, groups, id).Pass? <==> EntryOutcome(v, id).Success?
              ensures EntryError(v, groups, id).Fail? ==> EntryError(v, groups, id) == Fail(ConcurrentObjectAddition(id))
    {
      EntryErrorIsConflict(v, groups, id);
    }
  }

  /**
    With the groups of one lineage merged, merging the entries never orphans an
    entry: it fails only when both sides added different entries under one
    identifier, and otherwise every surviving entry has a surviving group.
   */
  lemma EntriesNeverOrphaned(v: Versions, groups: Records<Group>)
    requires GM.AllLinked(v) && GM.AllGroupsDecided(v) && EntriesPlaced(v) && EntriesHoused(v)
    requires groups.Keys == GM.SurvivingGroups(v).Keys
    ensures var merged := EntriesMerged(v, groups);
      && (merged.Success? <==> AllEntriesDecided(v))
      && (merged.Failure? ==> exists id :: id in AllEntries(v) && merged.error == ConcurrentObjectAddition(id))
      && (merged.Success? ==>
            && merged.value.records == SurvivingEntries(v)
            && forall id :: id in SurvivingEntries(v) ==>
                 SurvivingEntries(v)[id].parent.Some? && SurvivingEntries(v)[id].parent.value in groups)
  {
    hide EntryOutcome;
    ErrorsMatchOutcomes(v, groups);
    forall id | id in SurvivingEntries(v)
      ensures SurvivingEntries(v)[id].parent.Some? && SurvivingEntries(v)[id].parent.value in groups
    {
      EntryHomeSurvives(v, id);
    }
  }

  // ---- Required snapshots reach the merged entries ----

  lemma RequiredOfIsKept(v: Versions, id: Uuid)
    requires EntriesPlaced(v) && Keyed(v.remote) && id in AllEntries(v)
    ensures forall r :: r in RequiredOf(v, id) ==>
      && r.entryId == id && id in SurvivingEntries(v) && r.snapshot in SurvivingEntries(v)[id].value.history
  {
    hide MergedEntry, HistorySnapshot, EntryConflicts, AppendMissing, OutlivesDeletion;
    if id in v.base.entries && id in v.local.entries && id in v.remote.entries {
      RequiredAreKept(v.base.entries[id], v.local.entries[id], v.remote.entries[id]);
      assert EntryOutcome(v, id)
          == Success(Some(MergedRecord(v.base.entries[id], v.local.entries[id], v.remote.entries[id])));
    }
  }

  lemma {:induction false} RequiredComeFromEntries(v: Versions, ids: seq<Uuid>)
    requires EntriesPlaced(v)
    ensures forall r :: r in RequiredSnapshots(v, ids) <==> exists id :: id in ids && r in RequiredOf(v, id)
    decreases |ids|
  {
    hide RequiredOf, AppendMissing;
    if ids != [] {
      var init, last := ids[..|ids| - 1], ids[|ids| - 1];
      RequiredComeFromEntries(v, init);
      AppendMissingKeeps(RequiredSnapshots(v, init), RequiredOf(v, last));
      assert forall id :: id in ids <==> id in init || id == last;
    }
  }

  /** Every snapshot the caller must store is in the history of the merged entry it belongs to. */
  lemma RequiredSnapshotsAreKept(v: Versions, groups: Records<Group>)
    requires EntriesPlaced(v) && Keyed(v.remote) && EntriesMerged(v, groups).Success?
    ensures var merged := EntriesMerged(v, groups).value;
      forall r :: r in merged.required ==>
        r.entryId in merged.records && r.snapshot in merged.records[r.entryId].value.history
  {
    hide RequiredOf, EntryOutcome, AppendMissing, RequiredSnapshots;
    var ids := Ascending(AllEntries(v));
    RequiredComeFromEntries(v, ids);
    forall id | id in ids ensures forall r :: r in RequiredOf(v, id) ==>
      r.entryId == id && id in SurvivingEntries(v) && r.snapshot in SurvivingEntries(v)[id].value.history
    {
      assert id in Elements(ids);
      RequiredOfIsKept(v, id);
    }
  }

  /** The entry is held by all versions, and this version of it lost a contested field or place. */
  ghost predicate LosesTo(v: Versions, r: RequiredSnapshot) {
    && r.entryId in v.base.entries && r.entryId in v.local.entries && r.entryId in v.remote.entries
    && IsLosing(v.base.entries[r.entryId], v.local.entries[r.entryId], v.remote.entries[r.entryId], r.snapshot)
  }

  lemma RequiredOfLosers(v: Versions, id: Uuid, r: RequiredSnapshot)
    requires EntriesPlaced(v) && Keyed(v.remote)
    ensures r in RequiredOf(v, id) <==> r.entryId == id && LosesTo(v, r)
  {
    hide MergedRecord, OutlivesDeletion, IsLosing, EntryEditsKept, HistoryKept, PlaceKept;
    if id in v.base.entries && id in v.local.entries && id in v.remote.entries {
      NoLostEdit(v.base.entries[id], v.local.entries[id], v.remote.entries[id]);
      assert EntryOutcome(v, id)
          == Success(Some(MergedRecord(v.base.entries[id], v.local.entries[id], v.remote.entries[id])));
    }
  }

  /** Exactly the losing versions are required. */
  lemma RequiredExactly(v: Versions)
    requires EntriesPlaced(v) && Keyed(v.remote)
    ensures forall r :: r in RequiredSnapshots(v, Ascending(AllEntries(v))) <==> LosesTo(v, r)
  {
    hide RequiredOf, RequiredSnapshots, Keyed, EntriesPlaced;
    var ids := Ascending(AllEntries(v));
    RequiredComeFromEntries(v, ids);
    forall r ensures r in RequiredSnapshots(v, ids) <==> LosesTo(v, r) {
      forall id ensures r in RequiredOf(v, id) <==> r.entryId == id && LosesTo(v, r) {
        RequiredOfLosers(v, id, r);
      }
      if LosesTo(v, r) {
        assert r.entryId in Elements(ids);
        assert r in RequiredOf(v, r.entryId);
      }
    }
  }

  // ---- The merge loop ----

  ghost predicate MergedSoFar(v: Versions, merged: Records<Entry>, done: seq<Uuid>)
    requires EntriesPlaced(v)
  {
    && (forall id :: id in merged ==>
          && id in done && EntryOutcome(v, id).Success? && EntryOutcome(v, id).value.Some?
          && EntryOutcome(v, id).value.value.record == merged[id])
    && (forall id :: id in done && id !in merged ==> EntryOutcome(v, id) == Success(None))
  }

  lemma AllMerged(v: Versions, merged: Records<Entry>)
    requires EntriesPlaced(v) && MergedSoFar(v, merged, Ascending(AllEntries(v)))
    ensures merged == SurvivingEntries(v)
  {
    hide EntryOutcome, AllEntries, MergedSoFar;
    var ids := Ascending(AllEntries(v));
    forall id
      ensures id in merged <==> id in SurvivingEntries(v)
      ensures id in merged ==> merged[id] == SurvivingEntries(v)[id]
    {
      assert id in ids <==> id in Elements(ids);
      MergedAt(v, merged, ids, id);
    }
  }

  lemma MergedAt(v: Versions, merged: Records<Entry>, done: seq<Uuid>, id: Uuid)
    requires EntriesPlaced(v) && MergedSoFar(v, merged, done)
    ensures id in merged <==> id in done && EntryOutcome(v, id).Success? && EntryOutcome(v, id).value.Some?
    ensures id in merged ==> merged[id] == EntryOutcome(v, id).value.value.record
  {
    hide EntryOutcome;
  }

  lemma MergeStep(v: Versions, groups: Records<Group>, merged: Records<Entry>, ids: seq<Uuid>, i: nat)
    requires EntriesPlaced(v) && i < |ids| && MergedSoFar(v, merged, ids[..i])
    ensures RequiredSnapshots(v, ids[..i + 1]) == AppendMissing(RequiredSnapshots(v, ids[..i]), RequiredOf(v, ids[i]))
    ensures EntryError(v, groups, ids[i]).Fail? ==> FirstEntryError(v, groups, ids[i..]) == EntryError(v, groups, ids[i])
    ensures EntryError(v, groups, ids[i]).Pass? ==>
      && FirstEntryError(v, groups, ids[i..]) == FirstEntryError(v, groups, ids[i + 1..])
      && EntryOutcome(v, ids[i]).Success?
      && MergedSoFar(v, if EntryOutcome(v, ids[i]).value.Some?
                        then merged[ids[i] := EntryOutcome(v, ids[i]).value.value.record] else merged, ids[..i + 1])
  {
    hide EntryOutcome, EntryError, AppendMissing, RequiredOf, MergedSoFar;
    assert ids[i..][1..] == ids[i + 1..];
    assert ids[..i + 1][..i] == ids[..i];
    if EntryError(v, groups, ids[i]).Pass? {
      OneMerged(v, groups, merged, ids, i);
    }
  }

  lemma OneMerged(v: Versions, groups: Records<Group>, merged: Records<Entry>, ids: seq<Uuid>, i: nat)
    requires EntriesPlaced(v) && i < |ids| && MergedSoFar(v, merged, ids[..i])
    requires EntryError(v, groups, ids[i]).Pass?
    ensures EntryOutcome(v, ids[i]).Success?
    ensures MergedSoFar(v, if EntryOutcome(v, ids[i]).value.Some?
                           then merged[ids[i] := EntryOutcome(v, ids[i]).value.value.record] else merged, ids[..i + 1])
  {
    hide EntryOutcome;
    assert ids[..i + 1] == ids[..i] + [ids[i]];
  }

  lemma NothingMerged(v: Versions)
    requires EntriesPlaced(v)
    ensures MergedSoFar(v, map[], []) && RequiredSnapshots(v, []) == []
  {
  }

  lemma MergeDone(v: Versions, groups: Records<Group>, merged: Records<Entry>)
    requires EntriesPlaced(v) && MergedSoFar(v, merged, Ascending(AllEntries(v)))
    requires FirstEntryError(v, groups, Ascending(AllEntries(v))).Pass?
    ensures EntriesMerged(v, groups)
         == Success(MergedEntries(merged, RequiredSnapshots(v, Ascending(AllEntries(v)))))
  {
    hide EntryOutcome, RequiredSnapshots, MergedSoFar;
    AllMerged(v, merged);
  }
}
