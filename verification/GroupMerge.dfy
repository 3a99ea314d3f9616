/** Merging the groups of three flattened vaults. */
module GroupMerge {
  import opened Wrappers
  import opened IdOrder
  import opened Model
  import opened FieldMerge
  import opened Forest
  import opened Tree
  import opened Rebuild
  import opened SiblingMerge
  import opened Subtrees
  import CustomData

  // ---- One group's fields ----

  function LaterOf(a: Option<nat>, b: Option<nat>): Option<nat> {
    if a.None? then b else if b.None? then a else if a.value >= b.value then a else b
  }

  function MaxOf(a: nat, b: nat): nat {
    if a >= b then a else b
  }

  /** The later of both sides' clocks on one record of times. */
  function LaterTimes(content: GroupTimes, local: GroupTimes, remote: GroupTimes): GroupTimes {
    content.(modifiedAt := MaxOf(local.modifiedAt, remote.modifiedAt),
             locationChangedAt := LaterOf(local.locationChangedAt, remote.locationChangedAt))
  }

  /** Both sides added the same times. */
  predicate AddedAlike(base: Option<GroupTimes>, local: Option<GroupTimes>, remote: Option<GroupTimes>) {
    base.None? && local.Some? && remote.Some? && local.value.createdAt == remote.value.createdAt
  }

  function MergedTimes(base: Option<GroupTimes>, local: Option<GroupTimes>, remote: Option<GroupTimes>, preferLocal: bool)
    : Option<GroupTimes>
  {
    if base.Some? && local.Some? && remote.Some? then
      var createdAt := Selected(base.value.createdAt, local.value.createdAt, remote.value.createdAt, preferLocal);
      Some(LaterTimes(remote.value.(createdAt := createdAt), local.value, remote.value))
    else if AddedAlike(base, local, remote) then
      Some(LaterTimes(remote.value, local.value, remote.value))
    else Selected(base, local, remote, preferLocal)
  }

  predicate TimesConflict(base: Option<GroupTimes>, local: Option<GroupTimes>, remote: Option<GroupTimes>) {
    if base.Some? && local.Some? && remote.Some? then
      Conflicts(base.value.createdAt, local.value.createdAt, remote.value.createdAt)
    else !AddedAlike(base, local, remote) && Conflicts(base, local, remote)
  }

  function ModifiedAt(g: Group): nat {
    if g.times.Some? then g.times.value.modifiedAt else 0
  }

  function GroupMovedAt(g: Group): Option<nat> {
    if g.times.Some? then g.times.value.locationChangedAt else None
  }

  function SideOf(g: Group): CustomData.Side {
    CustomData.Side(g.customData, g.customDataBlocks)
  }

  predicate GroupConflicts(base: Group, local: Group, remote: Group) {
    || Conflicts(base.title, local.title, remote.title)
    || TimesConflict(base.times, local.times, remote.times)
    || Conflicts(base.rawState, local.rawState, remote.rawState)
    || Conflicts(base.opaqueXml, local.opaqueXml, remote.opaqueXml)
    || Conflicts((base.iconId, base.customIconId), (local.iconId, local.customIconId), (remote.iconId, remote.customIconId))
    || CustomData.UnitsConflict(SideOf(base), SideOf(local), SideOf(remote))
  }

  function MergedGroup(base: Group, local: Group, remote: Group): Group {
    var preferLocal := ModifiedAt(local) > ModifiedAt(remote);
    var rawState := Selected(base.rawState, local.rawState, remote.rawState, preferLocal);
    var opaqueXml := Selected(base.opaqueXml, local.opaqueXml, remote.opaqueXml, preferLocal);
    var icon := Selected((base.iconId, base.customIconId), (local.iconId, local.customIconId),
                         (remote.iconId, remote.customIconId), preferLocal);
    var data := CustomData.MergedSide(SideOf(base), SideOf(local), SideOf(remote), preferLocal,
                                      opaqueXml, rawState.nodeOrder);
    Group(remote.id,
          Selected(base.title, local.title, remote.title, preferLocal),
          icon.0, icon.1,
          MergedTimes(base.times, local.times, remote.times, preferLocal),
          data.values,
          data.fidelity.blocks,
          rawState.(nodeOrder := data.fidelity.nodeOrder),
          data.fidelity.opaqueXml,
          [], [])
  }

  function WithMovedAt(g: Group, movedAt: Option<nat>): Group {
    if g.times.Some? then g.(times := Some(g.times.value.(locationChangedAt := movedAt))) else g
  }

  // ---- One identifier ----

  datatype Versions = Versions(base: FlatVault, local: FlatVault, remote: FlatVault)

  /** The merged record of a group whose fields do not conflict. */
  function MergedRecord(base: Flat<Group>, local: Flat<Group>, remote: Flat<Group>): Flat<Group>
    requires base.parent.Some? <==> remote.parent.Some?
    requires base.parent.Some? <==> local.parent.Some?
  {
    var merged := MergedGroup(base.value, local.value, remote.value);
    if base.parent.None? then Flat(merged, None, remote.order)
    else
      var location := MergeLocation(base.parent.value, local.parent.value, remote.parent.value,
                                    GroupMovedAt(local.value), GroupMovedAt(remote.value));
      Flat(WithMovedAt(merged, location.changedAt), Some(location.parent),
           if location.prefersLocal then local.order else remote.order)
  }

  /** A group present in all three versions. */
  function MergedEverywhere(base: Flat<Group>, local: Flat<Group>, remote: Flat<Group>, id: Uuid)
    : Result<Flat<Group>, PatchError>
  {
    if GroupConflicts(base.value, local.value, remote.value) then
      Failure(FidelityConflict(GroupObject, Some(id), ModeledField))
    else if base.parent.Some? == local.parent.Some? == remote.parent.Some? then
      Success(MergedRecord(base, local, remote))
    else Failure(RootLineageMismatch)
  }

  function LocallyPreserved(v: Versions): set<Uuid> {
    PreservedSubtrees(v.base, v.local, v.remote)
  }

  function RemotelyPreserved(v: Versions): set<Uuid> {
    PreservedSubtrees(v.base, v.remote, v.local)
  }

  /** What becomes of one group identifier: kept as some record, dropped, or an error. */
  function GroupOutcome(v: Versions, id: Uuid): Result<Option<Flat<Group>>, PatchError> {
    var b, l, r := v.base.groups, v.local.groups, v.remote.groups;
    if id !in b then
      if id in l && id in r then
        if SubtreesEqual(v.local, v.remote, id) then Success(Some(r[id])) else Failure(ConcurrentObjectAddition(id))
      else if id in l then Success(Some(l[id]))
      else Success(Get(r, id))
    else if id in l && id in r then
      var merged :- MergedEverywhere(b[id], l[id], r[id], id);
      Success(Some(merged))
    else if id in l && InPreserved(id, v.local, LocallyPreserved(v)) then Success(Some(l[id]))
    else if id in r && InPreserved(id, v.remote, RemotelyPreserved(v)) then Success(Some(r[id]))
    else Success(None)
  }

  function AllGroups(v: Versions): set<Uuid> {
    UnionKeys(v.base.groups, v.local.groups, v.remote.groups)
  }

  function FirstGroupError(v: Versions, ids: seq<Uuid>): Outcome<PatchError> {
    if ids == [] then Pass
    else match GroupOutcome(v, ids[0])
      case Failure(e) => Fail(e)
      case Success(_) => FirstGroupError(v, ids[1..])
  }

  /** The groups that survive, before their parents are checked. */
  function SurvivingGroups(v: Versions): Records<Group> {
    map id | id in AllGroups(v) && GroupOutcome(v, id).Success? && GroupOutcome(v, id).value.Some?
      :: GroupOutcome(v, id).value.value
  }

  function FirstOrphan(m: Records<Group>, ids: seq<Uuid>): Outcome<PatchError> {
    if ids == [] then Pass
    else if ids[0] in m && m[ids[0]].parent.Some? && m[ids[0]].parent.value !in m then Fail(MissingParent(ids[0]))
    else FirstOrphan(m, ids[1..])
  }

  function GroupsMerged(v: Versions): Result<Records<Group>, PatchError> {
    match FirstGroupError(v, Ascending(AllGroups(v)))
    case Fail(e) => Failure(e)
    case Pass =>
      var merged := SurvivingGroups(v);
      match FirstOrphan(merged, Ascending(merged.Keys))
      case Fail(e) => Failure(e)
      case Pass => Success(merged)
  }

  lemma {:induction false} FirstGroupErrorIsExact(v: Versions, ids: seq<Uuid>)
    ensures var r := FirstGroupError(v, ids);
      && (r.Pass? <==> forall id :: id in ids ==> GroupOutcome(v, id).Success?)
      && (r.Fail? ==> exists id :: id in ids && GroupOutcome(v, id) == Failure(r.error))
  {
    if ids != [] {
      FirstGroupErrorIsExact(v, ids[1..]);
      assert ids == [ids[0]] + ids[1..];
    }
  }

  lemma {:induction false} FirstOrphanIsExact(m: Records<Group>, ids: seq<Uuid>)
    ensures FirstOrphan(m, ids).Pass? <==>
      forall id :: id in ids && id in m && m[id].parent.Some? ==> m[id].parent.value in m
  {
    if ids != [] {
      FirstOrphanIsExact(m, ids[1..]);
      assert ids == [ids[0]] + ids[1..];
    }
  }

  // ---- No orphans among the groups ----

  /** Three well-formed flat vaults of one lineage. */
  ghost predicate OneLineage(v: Versions) {
    && WellFormed(v.base) && WellFormed(v.local) && WellFormed(v.remote)
    && v.base.rootId == v.local.rootId == v.remote.rootId
  }

  ghost predicate AllGroupsDecided(v: Versions) {
    forall id :: id in AllGroups(v) ==> GroupOutcome(v, id).Success?
  }

  /** In every version each group but the common root has a parent in that version. */
  ghost predicate AllLinked(v: Versions) {
    && Linked(v.base.groups, v.base.rootId)
    && Linked(v.local.groups, v.base.rootId)
    && Linked(v.remote.groups, v.base.rootId)
  }

  lemma LineageIsLinked(v: Versions)
    requires OneLineage(v)
    ensures AllLinked(v)
  {
    RootedIsLinked(v.base.groups, v.base.rootId);
    RootedIsLinked(v.local.groups, v.base.rootId);
    RootedIsLinked(v.remote.groups, v.base.rootId);
  }

  /** A group only in local, or changed there, finds its local parent among the survivors. */
  lemma LocalParentSurvives(v: Versions, id: Uuid, parent: Uuid)
    requires AllLinked(v) && AllGroupsDecided(v)
    requires id in v.local.groups && v.local.groups[id].parent == Some(parent)
    requires (id in v.base.groups ==> !SameRecord(v.local.groups[id], v.base.groups[id]))
          || (id in v.base.groups && InPreserved(id, v.local, LocallyPreserved(v)))
    ensures parent in SurvivingGroups(v)
  {
    assert parent in v.local.groups;
    if parent in v.base.groups && parent !in v.remote.groups {
      if id in v.base.groups && InPreserved(id, v.local, LocallyPreserved(v)) {
        PreservedParent(v.base, v.local, v.remote, id, parent);
      } else {
        ChangedChildPreserves(v.base, v.local, v.remote, id, parent);
      }
    }
    assert GroupOutcome(v, parent).Success? && GroupOutcome(v, parent).value.Some?;
  }

  lemma RemoteParentSurvives(v: Versions, id: Uuid, parent: Uuid)
    requires AllLinked(v) && AllGroupsDecided(v)
    requires id in v.remote.groups && v.remote.groups[id].parent == Some(parent)
    requires (id in v.base.groups ==> !SameRecord(v.remote.groups[id], v.base.groups[id]))
          || (id in v.base.groups && InPreserved(id, v.remote, RemotelyPreserved(v)))
    ensures parent in SurvivingGroups(v)
  {
    assert parent in v.remote.groups;
    if parent in v.base.groups && parent !in v.local.groups {
      if id in v.base.groups && InPreserved(id, v.remote, RemotelyPreserved(v)) {
        PreservedParent(v.base, v.remote, v.local, id, parent);
      } else {
        ChangedChildPreserves(v.base, v.remote, v.local, id, parent);
      }
    }
    assert GroupOutcome(v, parent).Success? && GroupOutcome(v, parent).value.Some?;
  }

  /** A parent that both sides hold always survives. */
  lemma SharedGroupSurvives(v: Versions, id: Uuid)
    requires AllGroupsDecided(v) && id in v.local.groups && id in v.remote.groups
    ensures id in SurvivingGroups(v)
  {
    assert GroupOutcome(v, id).Success? && GroupOutcome(v, id).value.Some?;
  }

  /** Where a group held by all three versions ends up. */
  lemma MergedParentIs(v: Versions, id: Uuid) returns (location: Location)
    requires AllLinked(v) && AllGroupsDecided(v)
    requires id in v.base.groups && id in v.local.groups && id in v.remote.groups && id != v.base.rootId
    ensures v.base.groups[id].parent.Some? && v.local.groups[id].parent.Some? && v.remote.groups[id].parent.Some?
    ensures var b, l, r := v.base.groups[id], v.local.groups[id], v.remote.groups[id];
      location == MergeLocation(b.parent.value, l.parent.value, r.parent.value, GroupMovedAt(l.value), GroupMovedAt(r.value))
    ensures id in SurvivingGroups(v) && SurvivingGroups(v)[id].parent == Some(location.parent)
  {
    var b, l, r := v.base.groups[id], v.local.groups[id], v.remote.groups[id];
    location := MergeLocation(b.parent.value, l.parent.value, r.parent.value, GroupMovedAt(l.value), GroupMovedAt(r.value));
    assert GroupOutcome(v, id).Success?;
    assert MergedEverywhere(b, l, r, id) == Success(MergedRecord(b, l, r));
  }

  lemma MergedGroupParent(v: Versions, id: Uuid)
    requires AllLinked(v) && AllGroupsDecided(v)
    requires id in v.base.groups && id in v.local.groups && id in v.remote.groups && id != v.base.rootId
    ensures id in SurvivingGroups(v)
    ensures SurvivingGroups(v)[id].parent.Some? && SurvivingGroups(v)[id].parent.value in SurvivingGroups(v)
  {
    var location := MergedParentIs(v, id);
    var l, r := v.local.groups[id].parent.value, v.remote.groups[id].parent.value;
    if location.parent == r {
      if r in v.local.groups {
        SharedGroupSurvives(v, r);
      } else {
        RemoteParentSurvives(v, id, r);
      }
    } else if l in v.remote.groups {
      SharedGroupSurvives(v, l);
    } else {
      LocalParentSurvives(v, id, l);
    }
  }

  /** Every surviving group's parent survives. */
  lemma GroupParentSurvives(v: Versions, id: Uuid)
    requires AllLinked(v) && AllGroupsDecided(v) && id in SurvivingGroups(v) && id != v.base.rootId
    ensures SurvivingGroups(v)[id].parent.Some? && SurvivingGroups(v)[id].parent.value in SurvivingGroups(v)
  {
    match (id in v.base.groups, id in v.local.groups, id in v.remote.groups)
    case (false, false, true) => RemoteParentSurvives(v, id, v.remote.groups[id].parent.value);
    case (false, true, false) => LocalParentSurvives(v, id, v.local.groups[id].parent.value);
    case (false, true, true) => RemoteParentSurvives(v, id, v.remote.groups[id].parent.value);
    case (true, true, false) => LocalParentSurvives(v, id, v.local.groups[id].parent.value);
    case (true, false, true) => RemoteParentSurvives(v, id, v.remote.groups[id].parent.value);
    case (true, true, true) => MergedGroupParent(v, id);
    case _ =>
  }

  /** The surviving groups are linked up to the common root. */
  lemma SurvivorsAreLinked(v: Versions)
    requires AllLinked(v) && AllGroupsDecided(v)
    ensures Linked(SurvivingGroups(v), v.base.rootId)
  {
    var root := v.base.rootId;
    assert GroupOutcome(v, root).Success?;
    forall id | id in SurvivingGroups(v) && id != root
      ensures SurvivingGroups(v)[id].parent.Some? && SurvivingGroups(v)[id].parent.value in SurvivingGroups(v)
    {
      GroupParentSurvives(v, id);
    }
  }

  /** One group can only fail on a conflict of contents. */
  lemma OutcomeErrors(v: Versions, id: Uuid)
    requires AllLinked(v) && GroupOutcome(v, id).Failure?
    ensures GroupOutcome(v, id).error == ConcurrentObjectAddition(id)
         || GroupOutcome(v, id).error == FidelityConflict(GroupObject, Some(id), ModeledField)
  {
  }

  lemma FirstErrorDecides(v: Versions)
    ensures var first := FirstGroupError(v, Ascending(AllGroups(v)));
      && (first.Pass? <==> AllGroupsDecided(v))
      && (first.Fail? ==> exists id :: id in AllGroups(v) && GroupOutcome(v, id) == Failure(first.error))
  {
    var ids := Ascending(AllGroups(v));
    assert forall id :: id in ids <==> id in Elements(ids);
    FirstGroupErrorIsExact(v, ids);
  }

  /** Merging the groups of one lineage never orphans a group, and fails only on a conflict of contents. */
  lemma GroupsNeverOrphaned(v: Versions)
    requires AllLinked(v)
    ensures GroupsMerged(v).Success? <==> AllGroupsDecided(v)
    ensures GroupsMerged(v).Success? ==>
      GroupsMerged(v).value == SurvivingGroups(v) && Linked(SurvivingGroups(v), v.base.rootId)
    ensures GroupsMerged(v).Failure? ==>
      GroupsMerged(v).error.ConcurrentObjectAddition? || GroupsMerged(v).error.FidelityConflict?
  {
    FirstErrorDecides(v);
    var first := FirstGroupError(v, Ascending(AllGroups(v)));
    if first.Pass? {
      SurvivorsAreLinked(v);
      FirstOrphanIsExact(SurvivingGroups(v), Ascending(SurvivingGroups(v).Keys));
    } else {
      var id :| id in AllGroups(v) && GroupOutcome(v, id) == Failure(first.error);
      OutcomeErrors(v, id);
    }
  }

  // ---- The merge loop ----

  /** `merged` holds exactly the survivors among `done`. */
  ghost predicate MergedSoFar(v: Versions, merged: Records<Group>, done: seq<Uuid>) {
    && (forall id :: id in merged ==> id in done && GroupOutcome(v, id) == Success(Some(merged[id])))
    && (forall id :: id in done && id !in merged ==> GroupOutcome(v, id) == Success(None))
  }

  lemma AllMerged(v: Versions, merged: Records<Group>)
    requires MergedSoFar(v, merged, Ascending(AllGroups(v)))
    ensures merged == SurvivingGroups(v)
  {
    hide GroupOutcome;
    var ids := Ascending(AllGroups(v));
    assert forall id :: id in ids <==> id in Elements(ids);
  }

  lemma NothingMerged(v: Versions)
    ensures MergedSoFar(v, map[], [])
  {
  }

  /** One step of the loop: an error ends it, and a survivor joins the merged records. */
  lemma MergeStep(v: Versions, merged: Records<Group>, ids: seq<Uuid>, i: nat)
    requires i < |ids| && MergedSoFar(v, merged, ids[..i])
    ensures match GroupOutcome(v, ids[i])
      case Failure(e) => FirstGroupError(v, ids[i..]) == Fail(e)
      case Success(kept) =>
        && FirstGroupError(v, ids[i..]) == FirstGroupError(v, ids[i + 1..])
        && MergedSoFar(v, if kept.Some? then merged[ids[i] := kept.value] else merged, ids[..i + 1])
  {
    assert ids[i..][1..] == ids[i + 1..] && ids[..i + 1] == ids[..i] + [ids[i]];
  }

  method FindOrphan(merged: Records<Group>) returns (orphan: Outcome<PatchError>)
    ensures orphan == FirstOrphan(merged, Ascending(merged.Keys))
  {
    var keys := Ascending(merged.Keys);
    for i := 0 to |keys|
      invariant FirstOrphan(merged, keys[i..]) == FirstOrphan(merged, keys)
    {
      assert keys[i..][1..] == keys[i + 1..] && keys[i] in Elements(keys);
      var parent := merged[keys[i]].parent;
      if parent.Some? && parent.value !in merged {
        return Fail(MissingParent(keys[i]));
      }
    }
    return Pass;
  }
}
