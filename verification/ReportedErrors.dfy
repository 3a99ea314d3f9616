/** Which error a failing patch reports: the first stage that finds a fault, and in it the first fault. */
module ReportedErrors {
  import opened Wrappers
  import opened IdOrder
  import opened FidelitySlots
  import opened Model
  import opened FieldMerge
  import opened Forest
  import opened Tree
  import opened Rebuild
  import opened SiblingMerge
  import opened SiblingPairs
  import opened EntryMerge
  import opened EntrySurvival
  import opened MetaMerge
  import opened Clashes
  import opened Icons
  import opened VaultFates
  import opened CustomDataFates
  import opened PatchRecords
  import opened ThreeWayPatch
  import opened PatchTheorems
  import opened PatchSuccess
  import opened FlattenReports
  import GM = GroupMerge
  import GH = GroupHierarchy
  import CD = CustomData

  lemma AscendingHolds(s: set<Uuid>, id: Uuid)
    ensures id in Ascending(s) <==> id in s
  {
    assert id in Elements(Ascending(s)) <==> id in Ascending(s);
  }

  // ---- Repeated icons and tombstones ----

  /** The first identifier of the list that occurs before. */
  ghost predicate RepeatsFirst(ids: seq<Uuid>, id: Uuid) {
    exists i :: 0 <= i < |ids| && ids[i] == id && id in ids[..i] && Distinct(ids[..i])
  }

  ghost predicate RepeatsAt(ids: seq<Uuid>, seen: set<Uuid>, i: int) {
    && 0 <= i < |ids| && (ids[i] in seen || ids[i] in ids[..i])
    && Distinct(ids[..i]) && forall j :: 0 <= j < i ==> ids[j] !in seen
  }

  lemma {:induction false} FirstRepeatAt(ids: seq<Uuid>, seen: set<Uuid>) returns (i: nat)
    requires FirstRepeat(ids, seen).Some?
    ensures RepeatsAt(ids, seen, i) && FirstRepeat(ids, seen) == Some(ids[i])
  {
    if ids[0] in seen {
      i := 0;
    } else {
      var k := FirstRepeatAt(ids[1..], seen + {ids[0]});
      i := k + 1;
      assert ids[..i] == [ids[0]] + ids[1..][..k];
      assert ids[i] == ids[1..][k];
      assert forall j :: 0 <= j < k ==> ids[1..][j] == ids[j + 1];
    }
  }

  lemma FirstRepeatNamed(ids: seq<Uuid>)
    requires FirstRepeat(ids, {}).Some?
    ensures RepeatsFirst(ids, FirstRepeat(ids, {}).value)
  {
    var i := FirstRepeatAt(ids, {});
  }

  ghost predicate MetaIdsReport(vault: Vault, side: Version, e: PatchError) {
    if !Distinct(IconIds(vault.customIcons)) then
      e.DuplicateCustomIcon? && e.side == side && RepeatsFirst(IconIds(vault.customIcons), e.id)
    else
      e.DuplicateDeletedObject? && e.side == side && RepeatsFirst(DeletedIds(vault.deletedObjects), e.id)
  }

  lemma MetaIdsReported(vault: Vault, side: Version)
    requires EnsureUniqueMetaIds(vault, side).Fail?
    ensures MetaIdsReport(vault, side, EnsureUniqueMetaIds(vault, side).error)
  {
    FirstRepeatIsExact(IconIds(vault.customIcons), {});
    if FirstRepeat(IconIds(vault.customIcons), {}).Some? {
      FirstRepeatNamed(IconIds(vault.customIcons));
    } else {
      FirstRepeatNamed(DeletedIds(vault.deletedObjects));
    }
    hide FirstRepeat, Distinct;
  }

  // ---- Fidelity ----

  ghost predicate EntryBlocked(v: GM.Versions, id: Uuid) {
    && id in v.base.entries && id in v.local.entries && id in v.remote.entries
    && !EntryJoins(v.base.entries[id].value, v.local.entries[id].value, v.remote.entries[id].value)
  }

  ghost predicate GroupBlocked(v: GM.Versions, id: Uuid) {
    && id in v.base.groups && id in v.local.groups && id in v.remote.groups
    && !GroupJoins(v.base.groups[id].value, v.local.groups[id].value, v.remote.groups[id].value)
  }

  ghost function BlockedField(base: seq<OpaqueXmlFragment>, local: seq<OpaqueXmlFragment>, remote: seq<OpaqueXmlFragment>)
    : FidelityField
  {
    if Contested(base, local, remote) then OpaqueXmlField else CustomDataField
  }

  /** The vault's own content first, then the blocked entry of the lowest identifier, then such a group. */
  ghost predicate FidelityReport(base: Vault, local: Vault, remote: Vault, v: GM.Versions, e: PatchError) {
    if Contested(base.metaOpaqueXml, local.metaOpaqueXml, remote.metaOpaqueXml) then
      e == FidelityConflict(MetaObject, None, OpaqueXmlField)
    else if Contested(base.rootOpaqueXml, local.rootOpaqueXml, remote.rootOpaqueXml) then
      e == FidelityConflict(RootObject, None, OpaqueXmlField)
    else if !Joinable(MetaSide(base), MetaSide(local), remote.metaCustomDataBlocks) then
      e == FidelityConflict(MetaObject, None, CustomDataField)
    else if exists id :: EntryBlocked(v, id) then exists id :: FirstEntryBlocked(v, id, e)
    else exists id :: FirstGroupBlocked(v, id, e)
  }

  ghost predicate FirstEntryBlocked(v: GM.Versions, id: Uuid, e: PatchError) {
    && EntryBlocked(v, id) && (forall other :: EntryBlocked(v, other) ==> id <= other)
    && e == FidelityConflict(EntryObject, Some(id),
              BlockedField(v.base.entries[id].value.opaqueXml, v.local.entries[id].value.opaqueXml, v.remote.entries[id].value.opaqueXml))
  }

  ghost predicate FirstGroupBlocked(v: GM.Versions, id: Uuid, e: PatchError) {
    && GroupBlocked(v, id) && (forall other :: GroupBlocked(v, other) ==> id <= other)
    && e == FidelityConflict(GroupObject, Some(id),
              BlockedField(v.base.groups[id].value.opaqueXml, v.local.groups[id].value.opaqueXml, v.remote.groups[id].value.opaqueXml))
  }

  lemma EntryFidelityReported(v: GM.Versions, id: Uuid)
    ensures EntryFidelity(v.base, v.local, v.remote, id).Fail? <==> EntryBlocked(v, id)
    ensures EntryBlocked(v, id) ==>
      EntryFidelity(v.base, v.local, v.remote, id).error == FidelityConflict(EntryObject, Some(id),
           BlockedField(v.base.entries[id].value.opaqueXml, v.local.entries[id].value.opaqueXml, v.remote.entries[id].value.opaqueXml))
  {
    hide CD.RebaseRepresentable, Joinable;
    if id in v.base.entries && id in v.local.entries && id in v.remote.entries {
      var b, l, r := v.base.entries[id].value, v.local.entries[id].value, v.remote.entries[id].value;
      JoinableExactly(CD.Side(b.customData, b.customDataBlocks), CD.Side(l.customData, l.customDataBlocks), r.customDataBlocks);
    }
  }

  lemma GroupFidelityReported(v: GM.Versions, id: Uuid)
    ensures GroupFidelity(v.base, v.local, v.remote, id).Fail? <==> GroupBlocked(v, id)
    ensures GroupBlocked(v, id) ==>
      GroupFidelity(v.base, v.local, v.remote, id).error == FidelityConflict(GroupObject, Some(id),
           BlockedField(v.base.groups[id].value.opaqueXml, v.local.groups[id].value.opaqueXml, v.remote.groups[id].value.opaqueXml))
  {
    hide CD.RebaseRepresentable, Joinable;
    if id in v.base.groups && id in v.local.groups && id in v.remote.groups {
      var b, l, r := v.base.groups[id].value, v.local.groups[id].value, v.remote.groups[id].value;
      JoinableExactly(CD.Side(b.customData, b.customDataBlocks), CD.Side(l.customData, l.customDataBlocks), r.customDataBlocks);
    }
  }

  lemma {:induction false} FirstBlockedEntry(v: GM.Versions, ids: seq<Uuid>) returns (k: nat)
    requires AllEntryFidelity(v.base, v.local, v.remote, ids).Fail?
    ensures k < |ids| && EntryFidelity(v.base, v.local, v.remote, ids[k]) == AllEntryFidelity(v.base, v.local, v.remote, ids)
    ensures forall j :: 0 <= j < k ==> EntryFidelity(v.base, v.local, v.remote, ids[j]).Pass?
  {
    hide EntryFidelity;
    if EntryFidelity(v.base, v.local, v.remote, ids[0]).Fail? {
      k := 0;
    } else {
      var j := FirstBlockedEntry(v, ids[1..]);
      k := j + 1;
    }
  }

  lemma {:induction false} FirstBlockedGroup(v: GM.Versions, ids: seq<Uuid>) returns (k: nat)
    requires AllGroupFidelity(v.base, v.local, v.remote, ids).Fail?
    ensures k < |ids| && GroupFidelity(v.base, v.local, v.remote, ids[k]) == AllGroupFidelity(v.base, v.local, v.remote, ids)
    ensures forall j :: 0 <= j < k ==> GroupFidelity(v.base, v.local, v.remote, ids[j]).Pass?
  {
    hide GroupFidelity;
    if GroupFidelity(v.base, v.local, v.remote, ids[0]).Fail? {
      k := 0;
    } else {
      var j := FirstBlockedGroup(v, ids[1..]);
      k := j + 1;
    }
  }

  lemma {:induction false} NoneBlocked(v: GM.Versions, ids: seq<Uuid>)
    requires AllEntryFidelity(v.base, v.local, v.remote, ids).Pass?
    ensures forall id :: id in ids ==> !EntryBlocked(v, id)
  {
    hide EntryFidelity, EntryBlocked;
    if ids != [] {
      EntryFidelityReported(v, ids[0]);
      NoneBlocked(v, ids[1..]);
      assert ids == [ids[0]] + ids[1..];
    }
  }

  lemma EntriesBlockedReport(v: GM.Versions)
    ensures var r := AllEntryFidelity(v.base, v.local, v.remote, Ascending(v.base.entries.Keys));
      if r.Fail? then exists id :: FirstEntryBlocked(v, id, r.error) else forall id :: !EntryBlocked(v, id)
  {
    hide AllEntryFidelity, EntryFidelity, EntryJoins, Ascending, BlockedField;
    var ids := Ascending(v.base.entries.Keys);
    var r := AllEntryFidelity(v.base, v.local, v.remote, ids);
    forall id ensures id in ids <==> id in v.base.entries {
      AscendingHolds(v.base.entries.Keys, id);
    }
    if r.Fail? {
      var k := FirstBlockedEntry(v, ids);
      EntryFidelityReported(v, ids[k]);
      forall other | EntryBlocked(v, other) ensures ids[k] <= other {
        var j :| 0 <= j < |ids| && ids[j] == other;
        EntryFidelityReported(v, other);
        LowerComes(v.base.entries.Keys, j, k);
      }
      assert FirstEntryBlocked(v, ids[k], r.error);
    } else {
      NoneBlocked(v, ids);
    }
  }

  lemma LowerComes(s: set<Uuid>, j: nat, k: nat)
    requires j < |Ascending(s)| && k < |Ascending(s)|
    ensures Ascending(s)[j] < Ascending(s)[k] <==> j < k
  {
    var ids := Ascending(s);
    if j < k {
      assert ids[j] < ids[k];
    } else if k < j {
      assert ids[k] < ids[j];
    }
  }

  lemma GroupsBlockedReport(v: GM.Versions)
    requires AllGroupFidelity(v.base, v.local, v.remote, Ascending(v.base.groups.Keys)).Fail?
    ensures exists id :: FirstGroupBlocked(v, id, AllGroupFidelity(v.base, v.local, v.remote, Ascending(v.base.groups.Keys)).error)
  {
    hide AllGroupFidelity, GroupFidelity, GroupJoins, Ascending, BlockedField;
    var ids := Ascending(v.base.groups.Keys);
    var r := AllGroupFidelity(v.base, v.local, v.remote, ids);
    var k := FirstBlockedGroup(v, ids);
    GroupFidelityReported(v, ids[k]);
    forall other | GroupBlocked(v, other) ensures ids[k] <= other {
      AscendingHolds(v.base.groups.Keys, other);
      var j :| 0 <= j < |ids| && ids[j] == other;
      GroupFidelityReported(v, other);
      LowerComes(v.base.groups.Keys, j, k);
    }
    assert FirstGroupBlocked(v, ids[k], r.error);
  }

  lemma FidelityReported(base: Vault, local: Vault, remote: Vault, v: GM.Versions)
    requires EnsureFidelityRepresentable(base, local, remote, v.base, v.local, v.remote).Fail?
    ensures FidelityReport(base, local, remote, v, EnsureFidelityRepresentable(base, local, remote, v.base, v.local, v.remote).error)
  {
    hide AllEntryFidelity, AllGroupFidelity, Ascending, CD.RebaseRepresentable, Joinable, EntryBlocked, FirstEntryBlocked,
         FirstGroupBlocked;
    JoinableExactly(MetaSide(base), MetaSide(local), remote.metaCustomDataBlocks);
    EntriesBlockedReport(v);
    var entries := AllEntryFidelity(v.base, v.local, v.remote, Ascending(v.base.entries.Keys));
    var groups := AllGroupFidelity(v.base, v.local, v.remote, Ascending(v.base.groups.Keys));
    if entries.Fail? {
      var id :| FirstEntryBlocked(v, id, entries.error);
      BlockedIsBlocked(v, id, entries.error);
    } else if groups.Fail? {
      GroupsBlockedReport(v);
    }
  }

  lemma BlockedIsBlocked(v: GM.Versions, id: Uuid, e: PatchError)
    requires FirstEntryBlocked(v, id, e)
    ensures EntryBlocked(v, id)
  {
  }

  // ---- Local sibling orders ----

  ghost predicate SomeReordered(v: GM.Versions, p: Uuid) {
    || Reordered(v.base.entries, v.local.entries, v.remote.entries, p)
    || Reordered(v.base.groups, v.local.groups, v.remote.groups, p)
  }

  /** The lowest group in which local reordered something that stayed; entries before groups. */
  ghost predicate ReorderReport(v: GM.Versions, e: PatchError) {
    exists p :: p in v.base.groups && SomeReordered(v, p)
      && (forall other :: other in v.base.groups && SomeReordered(v, other) ==> p <= other)
      && e == SiblingOrderChange(p, if Reordered(v.base.entries, v.local.entries, v.remote.entries, p) then EntryObject else GroupObject)
  }

  lemma {:induction false} FirstReordered(v: GM.Versions, ids: seq<Uuid>) returns (k: nat)
    requires EnsureOrders(ids, v.base, v.local, v.remote).Fail?
    ensures k < |ids| && SomeReordered(v, ids[k]) && forall j :: 0 <= j < k ==> !SomeReordered(v, ids[j])
    ensures EnsureOrders(ids, v.base, v.local, v.remote).error == SiblingOrderChange(ids[k],
              if Reordered(v.base.entries, v.local.entries, v.remote.entries, ids[k]) then EntryObject else GroupObject)
  {
    hide Reordered, EntriesReordered, GroupsReordered;
    ReorderedAt(v, ids[0]);
    if SomeReordered(v, ids[0]) {
      k := 0;
    } else {
      hide SomeReordered;
      var j := FirstReordered(v, ids[1..]);
      k := j + 1;
    }
  }

  lemma ReorderedAt(v: GM.Versions, p: Uuid)
    ensures EntriesReordered(v.base, v.local, v.remote, p) <==> Reordered(v.base.entries, v.local.entries, v.remote.entries, p)
    ensures GroupsReordered(v.base, v.local, v.remote, p) <==> Reordered(v.base.groups, v.local.groups, v.remote.groups, p)
  {
    ReorderedExactly(v.base.entries, v.local.entries, v.remote.entries, p);
    ReorderedExactly(v.base.groups, v.local.groups, v.remote.groups, p);
    hide Reordered;
  }

  lemma ReorderReported(v: GM.Versions)
    requires EnsureLocalSiblingOrder(v.base, v.local, v.remote).Fail?
    ensures ReorderReport(v, EnsureLocalSiblingOrder(v.base, v.local, v.remote).error)
  {
    hide SomeReordered, Reordered, EnsureOrders;
    var ids := Ascending(v.base.groups.Keys);
    var k := FirstReordered(v, ids);
    AscendingHolds(v.base.groups.Keys, ids[k]);
    forall other | other in v.base.groups && SomeReordered(v, other) ensures ids[k] <= other {
      AscendingHolds(v.base.groups.Keys, other);
      var j :| 0 <= j < |ids| && ids[j] == other;
      LowerComes(v.base.groups.Keys, j, k);
    }
  }

  // ---- Merging groups and entries ----

  ghost predicate GroupClashes(v: GM.Versions, id: Uuid) {
    GroupClash(v.base, v.local, v.remote, id)
  }

  ghost predicate EntryClashes(v: GM.Versions, id: Uuid) {
    EntryClash(v.base, v.local, v.remote, id)
  }

  /** The lowest group the sides clash over: an addition under one identifier, or edits that cannot be joined. */
  ghost predicate GroupClashReport(v: GM.Versions, e: PatchError) {
    exists id :: GroupClashes(v, id) && (forall other :: GroupClashes(v, other) ==> id <= other)
      && e == if id in v.base.groups then FidelityConflict(GroupObject, Some(id), ModeledField) else ConcurrentObjectAddition(id)
  }

  ghost predicate EntryClashReport(v: GM.Versions, e: PatchError) {
    exists id :: EntryClashes(v, id) && (forall other :: EntryClashes(v, other) ==> id <= other) && e == ConcurrentObjectAddition(id)
  }

  lemma {:induction false} FirstClash(v: GM.Versions, ids: seq<Uuid>) returns (k: nat)
    requires GM.AllLinked(v) && GM.FirstGroupError(v, ids).Fail?
    ensures k < |ids| && GroupClashes(v, ids[k]) && forall j :: 0 <= j < k ==> !GroupClashes(v, ids[j])
    ensures GM.FirstGroupError(v, ids).error ==
      if ids[k] in v.base.groups then FidelityConflict(GroupObject, Some(ids[k]), ModeledField) else ConcurrentObjectAddition(ids[k])
  {
    hide GM.GroupOutcome, GM.AllLinked, GroupClash;
    GroupFailsExactly(v, ids[0]);
    if GroupClashes(v, ids[0]) {
      k := 0;
    } else {
      var j := FirstClash(v, ids[1..]);
      k := j + 1;
    }
  }

  lemma GroupClashReported(v: GM.Versions)
    requires GM.AllLinked(v) && GM.FirstGroupError(v, Ascending(GM.AllGroups(v))).Fail?
    ensures GroupClashReport(v, GM.FirstGroupError(v, Ascending(GM.AllGroups(v))).error)
  {
    hide GM.AllLinked, GM.FirstGroupError;
    var ids := Ascending(GM.AllGroups(v));
    var k := FirstClash(v, ids);
    forall other | GroupClashes(v, other) ensures ids[k] <= other {
      AscendingHolds(GM.AllGroups(v), other);
      var j :| 0 <= j < |ids| && ids[j] == other;
      LowerComes(GM.AllGroups(v), j, k);
    }
    hide GroupClashes;
  }

  lemma {:induction false} FirstEntryClash(v: GM.Versions, groups: Records<Group>, ids: seq<Uuid>) returns (k: nat)
    requires EntriesPlaced(v) && FirstEntryError(v, groups, ids).Fail?
    requires forall id :: EntryOutcome(v, id).Success? ==> EntryError(v, groups, id).Pass?
    ensures k < |ids| && EntryClashes(v, ids[k]) && forall j :: 0 <= j < k ==> !EntryClashes(v, ids[j])
    ensures FirstEntryError(v, groups, ids).error == ConcurrentObjectAddition(ids[k])
  {
    hide EntryOutcome, EntriesPlaced, EntryClash;
    EntryFailsExactly(v, ids[0]);
    if EntryClashes(v, ids[0]) {
      k := 0;
    } else {
      var j := FirstEntryClash(v, groups, ids[1..]);
      k := j + 1;
    }
  }

  lemma EntryClashReported(v: GM.Versions, groups: Records<Group>)
    requires EntriesPlaced(v) && FirstEntryError(v, groups, Ascending(AllEntries(v))).Fail?
    requires forall id :: EntryOutcome(v, id).Success? ==> EntryError(v, groups, id).Pass?
    ensures EntryClashReport(v, FirstEntryError(v, groups, Ascending(AllEntries(v))).error)
  {
    hide FirstEntryError, EntriesPlaced, EntryOutcome, EntryError;
    var ids := Ascending(AllEntries(v));
    var k := FirstEntryClash(v, groups, ids);
    forall other | EntryClashes(v, other) ensures ids[k] <= other {
      AscendingHolds(AllEntries(v), other);
      var j :| 0 <= j < |ids| && ids[j] == other;
      LowerComes(AllEntries(v), j, k);
    }
    hide EntryClashes;
  }

  lemma DecidedHaveHomes(v: GM.Versions, groups: Records<Group>)
    requires GM.AllLinked(v) && GM.AllGroupsDecided(v) && EntriesPlaced(v) && EntriesHoused(v)
    requires groups.Keys == GM.SurvivingGroups(v).Keys
    ensures forall id :: EntryOutcome(v, id).Success? ==> EntryError(v, groups, id).Pass?
  {
    hide EntryOutcome, GM.SurvivingGroups, GM.AllLinked, GM.AllGroupsDecided, EntriesHoused, EntriesPlaced;
    forall id | EntryOutcome(v, id).Success? && EntryOutcome(v, id).value.Some? ensures EntryError(v, groups, id).Pass? {
      EntryHomeSurvives(v, id);
    }
  }

  // ---- Sibling orders of the merge ----

  /** The lowest parent whose merged children cannot be ordered. */
  ghost predicate OrderReport<V>(s: Sides<V>, merged: Records<V>, e: PatchError) {
    exists p :: p in ParentsOf(merged) && MergedOrder(s, merged, p).Failure?
      && (forall other :: other in ParentsOf(merged) && MergedOrder(s, merged, other).Failure? ==> p <= other)
      && e == SiblingOrderChange(p, s.kind)
  }

  lemma OrderError<V>(s: Sides<V>, merged: Records<V>, p: Uuid)
    ensures MergedOrder(s, merged, p).Failure? ==> MergedOrder(s, merged, p).error == SiblingOrderChange(p, s.kind)
  {
    hide SurvivingOrder, PreferredIds;
  }

  lemma {:induction false} FirstUnorderedAt<V>(s: Sides<V>, merged: Records<V>, parents: seq<Uuid>) returns (k: nat)
    requires FirstUnordered(s, merged, parents).Fail?
    ensures k < |parents| && MergedOrder(s, merged, parents[k]).Failure?
    ensures forall j :: 0 <= j < k ==> MergedOrder(s, merged, parents[j]).Success?
    ensures FirstUnordered(s, merged, parents).error == SiblingOrderChange(parents[k], s.kind)
  {
    OrderError(s, merged, parents[0]);
    hide MergedOrder;
    if MergedOrder(s, merged, parents[0]).Failure? {
      k := 0;
    } else {
      var j := FirstUnorderedAt(s, merged, parents[1..]);
      k := j + 1;
    }
  }

  lemma OrderReported<V>(s: Sides<V>, merged: Records<V>)
    requires Reconciled(s, merged).Failure?
    ensures OrderReport(s, merged, Reconciled(s, merged).error)
  {
    hide MergedOrder, FirstUnordered;
    var ids := Ascending(ParentsOf(merged));
    var k := FirstUnorderedAt(s, merged, ids);
    AscendingHolds(ParentsOf(merged), ids[k]);
    forall other | other in ParentsOf(merged) && MergedOrder(s, merged, other).Failure? ensures ids[k] <= other {
      AscendingHolds(ParentsOf(merged), other);
      var j :| 0 <= j < |ids| && ids[j] == other;
      LowerComes(ParentsOf(merged), j, k);
    }
  }

  // ---- Cycles ----

  /** The group is its own ancestor. */
  ghost predicate OnCycle<V>(m: Records<V>, id: Uuid) {
    exists d: nat :: d > 0 && Ancestor(m, id, d) == Some(id)
  }

  ghost predicate LeadsTo<V>(m: Records<V>, from: Uuid, to: Uuid) {
    exists d: nat :: d > 0 && Ancestor(m, from, d) == Some(to)
  }

  lemma {:induction false} WalkMeetsCycle<V>(m: Records<V>, root: Uuid, id: Uuid, current: Uuid, visited: set<Uuid>)
    requires visited <= m.Keys && Walk(m, root, id, current, visited).Fail?
    requires Walk(m, root, id, current, visited).error.GroupCycle?
    requires forall x :: x in visited ==> LeadsTo(m, x, current)
    ensures OnCycle(m, Walk(m, root, id, current, visited).error.id)
    decreases m.Keys - visited
  {
    if current in visited {
      assert LeadsTo(m, current, current);
    } else {
      var parent := m[current].parent.value;
      assert Ancestor(m, parent, 0) == Some(parent);
      assert Ancestor(m, current, 1) == Some(parent);
      forall x | x in visited + {current} ensures LeadsTo(m, x, parent) {
        if x in visited {
          var d: nat :| d > 0 && Ancestor(m, x, d) == Some(current);
          AncestorSplit(m, x, d, 1);
          assert Ancestor(m, x, d + 1) == Some(parent);
        }
      }
      WalkMeetsCycle(m, root, id, parent, visited + {current});
    }
  }

  lemma {:induction false} WalksMeetCycle<V>(m: Records<V>, root: Uuid, ids: seq<Uuid>)
    requires WalkAll(m, root, ids).Fail? && WalkAll(m, root, ids).error.GroupCycle?
    ensures OnCycle(m, WalkAll(m, root, ids).error.id)
  {
    hide Walk, OnCycle;
    if Walk(m, root, ids[0], ids[0], {}).Fail? {
      WalkMeetsCycle(m, root, ids[0], ids[0], {});
    } else {
      WalksMeetCycle(m, root, ids[1..]);
    }
  }

  lemma SameCycle<V>(a: Records<V>, b: Records<V>, id: Uuid)
    requires SamePlaces(a, b) && OnCycle(a, id)
    ensures OnCycle(b, id)
  {
    var d: nat :| d > 0 && Ancestor(a, id, d) == Some(id);
    SameAncestors(a, b, id, d);
  }

  lemma {:induction false} SameAncestors<V>(a: Records<V>, b: Records<V>, id: Uuid, d: nat)
    requires SamePlaces(a, b)
    ensures Ancestor(a, id, d) == Ancestor(b, id, d)
    decreases d
  {
    if d > 0 && id in a && a[id].parent.Some? {
      SameAncestors(a, b, a[id].parent.value, d - 1);
    }
  }

  // ---- Groups, then entries ----

  ghost predicate GroupsReport(v: GM.Versions, e: PatchError) {
    if !NoGroupClash(v) then GroupClashReport(v, e)
    else if !OrdersMerge(GroupSides(v), GM.SurvivingGroups(v)) then OrderReport(GroupSides(v), GM.SurvivingGroups(v), e)
    else !Rooted(GM.SurvivingGroups(v), v.base.rootId) && e.GroupCycle? && OnCycle(GM.SurvivingGroups(v), e.id)
  }

  ghost predicate EntriesReport(v: GM.Versions, e: PatchError)
    requires EntriesPlaced(v)
  {
    if !NoEntryClash(v) then EntryClashReport(v, e) else OrderReport(EntrySides(v), SurvivingEntries(v), e)
  }

  lemma GroupsReported(v: GM.Versions)
    requires GM.OneLineage(v) && PatchedGroups(v).Failure?
    ensures GroupsReport(v, PatchedGroups(v).error)
  {
    hide GM.SurvivingGroups, Reconciled, MergedOrder, Rooted, GM.AllGroupsDecided, NoGroupClash, GroupClashReport,
         OrderReport, OnCycle, GM.FirstGroupError, GM.FirstOrphan, GM.OneLineage, WalkAll;
    GM.LineageIsLinked(v);
    GM.GroupsNeverOrphaned(v);
    GroupsDecidedExactly(v);
    if GM.AllGroupsDecided(v) {
      var merged := GM.SurvivingGroups(v);
      ReconciledIsExact(GroupSides(v), merged);
      var ordered := Reconciled(GroupSides(v), merged);
      if ordered.Success? {
        GH.SameRootedness(ordered.value, merged, v.base.rootId);
        ValidateIsExact(v.base.rootId, ordered.value);
        CycleReported(v, ordered.value);
      } else {
        OrderReported(GroupSides(v), merged);
      }
    } else {
      ClashFirst(v);
    }
  }

  lemma ClashFirst(v: GM.Versions)
    requires GM.AllLinked(v) && !GM.AllGroupsDecided(v) && PatchedGroups(v).Failure?
    ensures GroupClashReport(v, PatchedGroups(v).error)
  {
    hide GM.AllLinked, GroupClashReport, Reconciled, GM.FirstGroupError, GM.FirstOrphan, GM.SurvivingGroups;
    GM.FirstErrorDecides(v);
    GroupClashReported(v);
  }

  lemma CycleReported(v: GM.Versions, ordered: Records<Group>)
    requires SamePlaces(ordered, GM.SurvivingGroups(v)) && Linked(ordered, v.base.rootId)
    requires ValidateHierarchy(v.base.rootId, ordered).Fail?
    ensures ValidateHierarchy(v.base.rootId, ordered).error.GroupCycle?
    ensures OnCycle(GM.SurvivingGroups(v), ValidateHierarchy(v.base.rootId, ordered).error.id)
  {
    hide GM.SurvivingGroups, OnCycle, WalkAll, SamePlaces;
    ValidateIsExact(v.base.rootId, ordered);
    WalksMeetCycle(ordered, v.base.rootId, Ascending(ordered.Keys));
    SameCycle(ordered, GM.SurvivingGroups(v), ValidateHierarchy(v.base.rootId, ordered).error.id);
  }

  lemma EntriesReported(v: GM.Versions)
    requires GM.OneLineage(v) && EntriesPlaced(v) && PatchedGroups(v).Success? && Patched(v).Failure?
    ensures EntriesReport(v, Patched(v).error)
  {
    hide GM.SurvivingGroups, SurvivingEntries, PatchedGroups, Reconciled, MergedOrder, GM.OneLineage, AllEntriesDecided,
         EntriesHoused, NoEntryClash, EntryClashReport, OrderReport, FirstEntryError, RequiredSnapshots, EntryOutcome, EntryError;
    LineageIsHoused(v);
    EntriesDecidedExactly(v);
    PatchedGroupsAre(v);
    var groups := PatchedGroups(v).value;
    EntriesNeverOrphaned(v, groups);
    if AllEntriesDecided(v) {
      OrderReported(EntrySides(v), SurvivingEntries(v));
    } else {
      DecidedHaveHomes(v, groups);
      EntryClashReported(v, groups);
    }
  }

  // ---- The vault's fields ----

  ghost predicate IconClashes(base: Vault, local: Vault, remote: Vault, id: Uuid) {
    IconContested(IconOf(base.customIcons, id), IconOf(local.customIcons, id), IconOf(remote.customIcons, id))
  }

  /** The lowest contested icon: added twice, or redrawn twice; else some field of the vault. */
  ghost predicate MetaReport(base: Vault, local: Vault, remote: Vault, e: PatchError) {
    if exists id :: IconClashes(base, local, remote, id) then
      exists id :: IconClashes(base, local, remote, id) && (forall other :: IconClashes(base, local, remote, other) ==> id <= other)
        && e == if IconOf(base.customIcons, id).None? then ConcurrentObjectAddition(id)
                else FidelityConflict(MetaObject, None, CustomIconField)
    else e == FidelityConflict(MetaObject, None, ModeledField)
  }

  lemma IconError(b: Option<CustomIcon>, l: Option<CustomIcon>, r: Option<CustomIcon>, id: Uuid)
    requires SelectedIcon(b, l, r, id).Failure?
    ensures SelectedIcon(b, l, r, id).error ==
      if b.None? then ConcurrentObjectAddition(id) else FidelityConflict(MetaObject, None, CustomIconField)
  {
  }

  lemma {:induction false} FirstIconClash(b: map<Uuid, CustomIcon>, l: map<Uuid, CustomIcon>, r: map<Uuid, CustomIcon>, ids: seq<Uuid>)
    returns (k: nat)
    requires IconsOf(b, l, r, ids).Failure?
    ensures k < |ids| && SelectedIcon(Get(b, ids[k]), Get(l, ids[k]), Get(r, ids[k]), ids[k]).Failure?
    ensures forall j :: 0 <= j < k ==> SelectedIcon(Get(b, ids[j]), Get(l, ids[j]), Get(r, ids[j]), ids[j]).Success?
    ensures IconsOf(b, l, r, ids).error ==
      if Get(b, ids[k]).None? then ConcurrentObjectAddition(ids[k]) else FidelityConflict(MetaObject, None, CustomIconField)
  {
    if SelectedIcon(Get(b, ids[0]), Get(l, ids[0]), Get(r, ids[0]), ids[0]).Failure? {
      IconError(Get(b, ids[0]), Get(l, ids[0]), Get(r, ids[0]), ids[0]);
      k := 0;
    } else {
      hide SelectedIcon, StampedIcon;
      var j := FirstIconClash(b, l, r, ids[1..]);
      k := j + 1;
    }
  }

  lemma IconsReported(base: Vault, local: Vault, remote: Vault)
    requires MergedIcons(base.customIcons, local.customIcons, remote.customIcons).Failure?
    ensures MetaReport(base, local, remote, MergedIcons(base.customIcons, local.customIcons, remote.customIcons).error)
  {
    var b, l, r := IconsById(base.customIcons), IconsById(local.customIcons), IconsById(remote.customIcons);
    hide IconsById, IconsOf, SelectedIcon, IconContested, IconOf, IconClashes, MetaReport, Ascending;
    var ids := Ascending(UnionKeys(b, l, r));
    assert MergedIcons(base.customIcons, local.customIcons, remote.customIcons) == IconsOf(b, l, r, ids);
    hide MergedIcons;
    var k := FirstIconClash(b, l, r, ids);
    ContestedFails(base, local, remote, ids[k]);
    LowestIconClash(base, local, remote, ids, k);
    IconFound(base.customIcons, ids[k]);
    IconReported(base, local, remote, ids[k], IconsOf(b, l, r, ids).error);
  }

  lemma IconReported(base: Vault, local: Vault, remote: Vault, id: Uuid, e: PatchError)
    requires IconClashes(base, local, remote, id)
    requires forall other :: IconClashes(base, local, remote, other) ==> id <= other
    requires e == if IconOf(base.customIcons, id).None? then ConcurrentObjectAddition(id)
                  else FidelityConflict(MetaObject, None, CustomIconField)
    ensures MetaReport(base, local, remote, e)
  {
    hide IconClashes, IconOf;
  }

  lemma LowestIconClash(base: Vault, local: Vault, remote: Vault, ids: seq<Uuid>, k: nat)
    requires var b, l, r := IconsById(base.customIcons), IconsById(local.customIcons), IconsById(remote.customIcons);
      && ids == Ascending(UnionKeys(b, l, r)) && k < |ids|
      && forall j :: 0 <= j < k ==> SelectedIcon(Get(b, ids[j]), Get(l, ids[j]), Get(r, ids[j]), ids[j]).Success?
    ensures forall other :: IconClashes(base, local, remote, other) ==> ids[k] <= other
  {
    var b, l, r := IconsById(base.customIcons), IconsById(local.customIcons), IconsById(remote.customIcons);
    hide IconsById, SelectedIcon, IconClashes;
    forall other | IconClashes(base, local, remote, other) ensures ids[k] <= other {
      ContestedFails(base, local, remote, other);
      ContestedIsHeld(base, local, remote, other);
      AscendingHolds(UnionKeys(b, l, r), other);
      var j :| 0 <= j < |ids| && ids[j] == other;
      LowerComes(UnionKeys(b, l, r), j, k);
    }
  }

  lemma ContestedFails(base: Vault, local: Vault, remote: Vault, id: Uuid)
    ensures SelectedIcon(Get(IconsById(base.customIcons), id), Get(IconsById(local.customIcons), id),
                         Get(IconsById(remote.customIcons), id), id).Failure?
       <==> IconClashes(base, local, remote, id)
  {
    IconFound(base.customIcons, id);
    IconFound(local.customIcons, id);
    IconFound(remote.customIcons, id);
    hide IconsById, SelectedIcon, IconContested, IconOf;
    ChosenIsKept(IconOf(base.customIcons, id), IconOf(local.customIcons, id), IconOf(remote.customIcons, id), id);
  }

  lemma ContestedIsHeld(base: Vault, local: Vault, remote: Vault, id: Uuid)
    requires IconClashes(base, local, remote, id)
    ensures id in UnionKeys(IconsById(base.customIcons), IconsById(local.customIcons), IconsById(remote.customIcons))
  {
    IconFound(local.customIcons, id);
    hide IconsById, IconOf;
  }

  lemma MetaReported(base: Vault, local: Vault, remote: Vault)
    requires MergedMeta(base, local, remote).Failure?
    ensures MetaReport(base, local, remote, MergedMeta(base, local, remote).error)
  {
    hide MergedIcons, MetaConflicts, CD.MergedSide, MergedStamped, MergedDeletions;
    MergedIconsFail(base.customIcons, local.customIcons, remote.customIcons);
    if MergedIcons(base.customIcons, local.customIcons, remote.customIcons).Failure? {
      IconsReported(base, local, remote);
    }
    hide IconClashes, IconContested, IconOf;
  }

  // ---- The whole patch ----

  /** The three trees, one after the other, then their common root. */
  ghost predicate TreesReport(base: Vault, local: Vault, remote: Vault, e: PatchError) {
    if !DistinctGroup(base.root) then RepeatReport(base, BaseSide, e)
    else if !DistinctGroup(local.root) then RepeatReport(local, LocalSide, e)
    else if !DistinctGroup(remote.root) then RepeatReport(remote, RemoteSide, e)
    else e == RootLineageMismatch
  }

  /** The checks before merging, one after the other. */
  ghost predicate ChecksReport(base: Vault, local: Vault, remote: Vault, v: GM.Versions, e: PatchError) {
    if !UniqueMetaIds(base) then MetaIdsReport(base, BaseSide, e)
    else if !UniqueMetaIds(local) then MetaIdsReport(local, LocalSide, e)
    else if !UniqueMetaIds(remote) then MetaIdsReport(remote, RemoteSide, e)
    else if !AllFidelityJoins(base, local, remote, v) then FidelityReport(base, local, remote, v, e)
    else ReorderReport(v, e)
  }

  /** The stages in their order: trees, checks, groups, entries, the vault's fields. */
  ghost predicate Reports(base: Vault, local: Vault, remote: Vault, e: PatchError) {
    if !ThreeTrees(base, local, remote) then TreesReport(base, local, remote, e)
    else
      Flattened(base, local, remote).Success? &&
      var v := Flattened(base, local, remote).value;
      if !Representable(base, local, remote, v) then ChecksReport(base, local, remote, v, e)
      else if !GroupsMerge(v) || !Rooted(GM.SurvivingGroups(v), v.base.rootId) then GroupsReport(v, e)
      else if !EntriesMerge(v) then EntriesReport(v, e)
      else MetaReport(base, local, remote, e)
  }

  lemma TreesReported(base: Vault, local: Vault, remote: Vault)
    requires Flattened(base, local, remote).Failure?
    ensures TreesReport(base, local, remote, Flattened(base, local, remote).error)
  {
    FlattenIsExact(base, BaseSide);
    FlattenIsExact(local, LocalSide);
    FlattenIsExact(remote, RemoteSide);
    FlattenReported(base, BaseSide);
    FlattenReported(local, LocalSide);
    FlattenReported(remote, RemoteSide);
    hide DistinctGroup, RepeatReport, FlattenVault, HoldsGroup, AllGroupIds, AllEntryIds;
  }

  lemma ChecksReported(base: Vault, local: Vault, remote: Vault, v: GM.Versions)
    requires Preflight(base, local, remote, v).Fail?
    ensures ChecksReport(base, local, remote, v, Preflight(base, local, remote, v).error)
  {
    hide EnsureUniqueMetaIds, EnsureFidelityRepresentable, EnsureLocalSiblingOrder, AllFidelityJoins, Distinct, MetaIdsReport,
         FidelityReport, ReorderReport, UniqueMetaIds;
    MetaIdsChecked(base, BaseSide);
    MetaIdsChecked(local, LocalSide);
    MetaIdsChecked(remote, RemoteSide);
    FidelityJoinsExactly(base, local, remote, v);
    if EnsureFidelityRepresentable(base, local, remote, v.base, v.local, v.remote).Fail? {
      FidelityReported(base, local, remote, v);
    }
    if EnsureLocalSiblingOrder(v.base, v.local, v.remote).Fail? {
      ReorderReported(v);
    }
  }

  lemma MetaIdsChecked(vault: Vault, side: Version)
    ensures EnsureUniqueMetaIds(vault, side).Pass? <==> UniqueMetaIds(vault)
    ensures EnsureUniqueMetaIds(vault, side).Fail? ==> MetaIdsReport(vault, side, EnsureUniqueMetaIds(vault, side).error)
  {
    UniqueMetaIdsIsExact(vault, side);
    hide EnsureUniqueMetaIds, MetaIdsReport, Distinct;
    if EnsureUniqueMetaIds(vault, side).Fail? {
      MetaIdsReported(vault, side);
    }
  }

  /** A failing patch reports the first fault of the first stage that finds one. */
  lemma PatchReports(base: Vault, local: Vault, remote: Vault)
    requires Patch(base, local, remote).Failure?
    ensures Reports(base, local, remote, Patch(base, local, remote).error)
  {
    hide DistinctGroup, Flattened, Preflight, Patched, RebuildTree, MergedMeta, GM.OneLineage, Representable, GroupsMerge,
         EntriesMerge, Rooted, GM.SurvivingGroups, EntriesPlaced, TreesReport, ChecksReport, GroupsReport, EntriesReport, MetaReport;
    FlattenedIsExact(base, local, remote);
    var flat := Flattened(base, local, remote);
    if flat.Failure? {
      TreesReported(base, local, remote);
    } else {
      FlattenedIsOneLineage(base, local, remote);
      StagesReported(base, local, remote, flat.value);
    }
  }

  lemma StagesReported(base: Vault, local: Vault, remote: Vault, v: GM.Versions)
    requires Flattened(base, local, remote) == Success(v) && GM.OneLineage(v) && Patch(base, local, remote).Failure?
    ensures var e := Patch(base, local, remote).error;
      if !Representable(base, local, remote, v) then ChecksReport(base, local, remote, v, e)
      else if !GroupsMerge(v) || !Rooted(GM.SurvivingGroups(v), v.base.rootId) then GroupsReport(v, e)
      else if !EntriesMerge(v) then EntriesReport(v, e)
      else MetaReport(base, local, remote, e)
  {
    hide Flattened, Preflight, PatchedGroups, EntriesMerged, Reconciled, RebuildTree, MergedMeta, GM.OneLineage, Representable,
         GroupsMerge, EntriesMerge, Rooted, GM.SurvivingGroups, EntriesPlaced, ChecksReport, GroupsReport, EntriesReport, MetaReport;
    PreflightIsExact(base, local, remote, v);
    PatchedGroupsIsExact(v);
    if Preflight(base, local, remote, v).Fail? {
      ChecksReported(base, local, remote, v);
    } else if PatchedGroups(v).Failure? {
      GroupsReported(v);
    } else {
      PatchedEntriesIsExact(v);
      if Patched(v).Failure? {
        EntriesReported(v);
      } else {
        RebuildNeverFails(v, Patched(v).value);
        MetaReported(base, local, remote);
      }
    }
  }
}
