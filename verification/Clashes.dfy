/** When two sides clash over a group or an entry, and what a change inside a subtree is, in terms of the records alone. */
module Clashes {
  import opened Wrappers
  import opened IdOrder
  import opened Model
  import opened FieldMerge
  import opened Forest
  import opened Tree
  import opened Subtrees
  import opened EntryMerge
  import opened EntrySurvival
  import GM = GroupMerge
  import CD = CustomData

  // ---- Below a group ----

  /** Following parent links from `id` leads to `top`. */
  ghost predicate Under<V>(m: Records<V>, id: Uuid, top: Uuid) {
    exists n: nat :: Ancestor(m, id, n) == Some(top)
  }

  lemma UnderIsBelow<V>(m: Records<V>, id: Uuid, top: Uuid)
    ensures Under(m, id, top) <==> IsBelow(m, id, top)
  {
    if Under(m, id, top) {
      var n: nat :| Ancestor(m, id, n) == Some(top);
      ReachedIsBelow(m, id, top, n);
    }
  }

  /** The record is missing on the other side, or has another parent or other contents there. */
  ghost predicate Changed<V>(m: Records<V>, other: Records<V>, id: Uuid)
    requires id in m
  {
    id !in other || other[id].parent != m[id].parent || other[id].value != m[id].value
  }

  ghost predicate FiledUnder(flat: FlatVault, id: Uuid, top: Uuid)
    requires id in flat.entries
  {
    flat.entries[id].parent.Some? && Under(flat.groups, flat.entries[id].parent.value, top)
  }

  /**
    Something in the subtree differs between base and side: a record that either
    of them has there was deleted, added, moved in or out, or changed.
   */
  ghost predicate Touched(base: FlatVault, side: FlatVault, top: Uuid) {
    || top !in base.groups || top !in side.groups || Changed(base.groups, side.groups, top)
    || (exists id :: id in base.groups && Under(base.groups, id, top) && Changed(base.groups, side.groups, id))
    || (exists id :: id in base.entries && FiledUnder(base, id, top) && Changed(base.entries, side.entries, id))
    || (exists id :: id in side.groups && Under(side.groups, id, top) && Changed(side.groups, base.groups, id))
    || (exists id :: id in side.entries && FiledUnder(side, id, top) && Changed(side.entries, base.entries, id))
  }

  lemma SomeDiffers(flat: FlatVault, other: FlatVault, top: Uuid)
    ensures SomeGroupDiffers(flat, other, top)
       <==> exists id :: id in flat.groups && Under(flat.groups, id, top) && Changed(flat.groups, other.groups, id)
    ensures SomeEntryDiffers(flat, other, top)
       <==> exists id :: id in flat.entries && FiledUnder(flat, id, top) && Changed(flat.entries, other.entries, id)
  {
    hide IsBelow, Under;
    forall id ensures Under(flat.groups, id, top) <==> IsBelow(flat.groups, id, top) {
      UnderIsBelow(flat.groups, id, top);
    }
  }

  lemma ChangedExactly(base: FlatVault, side: FlatVault, top: Uuid)
    ensures SubtreeChanged(base, side, top) <==> Touched(base, side, top)
  {
    hide SomeGroupDiffers, SomeEntryDiffers, Under, FiledUnder;
    SomeDiffers(base, side, top);
    SomeDiffers(side, base, top);
  }

  /** Some group the other side deleted holds the given one, and something in it was touched. */
  ghost predicate KeptAlive(group: Uuid, base: FlatVault, keeper: FlatVault, deleter: FlatVault) {
    exists top :: top in base.groups && top in keeper.groups && top !in deleter.groups
      && Under(keeper.groups, group, top) && Touched(base, keeper, top)
  }

  lemma PreservedExactly(group: Uuid, base: FlatVault, keeper: FlatVault, deleter: FlatVault)
    ensures InPreserved(group, keeper, PreservedSubtrees(base, keeper, deleter))
       <==> KeptAlive(group, base, keeper, deleter)
  {
    hide SubtreeChanged, IsBelow, Under, Touched;
    forall top ensures SubtreeChanged(base, keeper, top) <==> Touched(base, keeper, top)
               ensures Under(keeper.groups, group, top) <==> IsBelow(keeper.groups, group, top)
    {
      ChangedExactly(base, keeper, top);
      UnderIsBelow(keeper.groups, group, top);
    }
  }

  // ---- Entries ----

  /** Both sides added the entry, in different groups or with different contents. */
  ghost predicate EntryClash(base: FlatVault, local: FlatVault, remote: FlatVault, id: Uuid) {
    && id !in base.entries && id in local.entries && id in remote.entries
    && (local.entries[id].parent != remote.entries[id].parent || local.entries[id].value != remote.entries[id].value)
  }

  lemma EntryFailsExactly(v: Versions, id: Uuid)
    requires EntriesPlaced(v)
    ensures EntryOutcome(v, id).Failure? <==> EntryClash(v.base, v.local, v.remote, id)
    ensures EntryOutcome(v, id).Failure? ==> EntryOutcome(v, id) == Failure(ConcurrentObjectAddition(id))
  {
    hide MergedRecord, OutlivesDeletion;
  }

  ghost predicate NoEntryClash(v: Versions) {
    forall id :: !EntryClash(v.base, v.local, v.remote, id)
  }

  lemma EntriesDecidedExactly(v: Versions)
    requires EntriesPlaced(v)
    ensures AllEntriesDecided(v) <==> NoEntryClash(v)
  {
    hide EntryOutcome, EntriesPlaced;
    forall id ensures EntryOutcome(v, id).Failure? <==> EntryClash(v.base, v.local, v.remote, id) {
      EntryFailsExactly(v, id);
    }
  }

  // ---- Groups ----

  /** Everything the first vault holds under the group, the second holds there too, and alike. */
  ghost predicate HeldAlike(a: FlatVault, b: FlatVault, top: Uuid) {
    && (forall id :: id in a.groups && Under(a.groups, id, top) ==>
          id in b.groups && Under(b.groups, id, top)
          && b.groups[id].parent == a.groups[id].parent && b.groups[id].value == a.groups[id].value)
    && (forall id :: id in a.entries && FiledUnder(a, id, top) ==>
          id in b.entries && FiledUnder(b, id, top)
          && b.entries[id].parent == a.entries[id].parent && b.entries[id].value == a.entries[id].value)
  }

  lemma HeldAlikeExactly(a: FlatVault, b: FlatVault, top: Uuid)
    ensures SubtreesEqual(a, b, top) <==> HeldAlike(a, b, top) && HeldAlike(b, a, top)
  {
    hide IsBelow, Under;
    forall id ensures Under(a.groups, id, top) <==> IsBelow(a.groups, id, top)
              ensures Under(b.groups, id, top) <==> IsBelow(b.groups, id, top)
    {
      UnderIsBelow(a.groups, id, top);
      UnderIsBelow(b.groups, id, top);
    }
    assert forall id | id in a.entries :: EntryBelow(a, id, top) <==> FiledUnder(a, id, top);
    assert forall id | id in b.entries :: EntryBelow(b, id, top) <==> FiledUnder(b, id, top);
    hide EntryBelow, FiledUnder;
  }

  /** Times as a whole, unless all versions carry them or both sides added the same creation time. */
  ghost predicate TimesContested(base: Option<GroupTimes>, local: Option<GroupTimes>, remote: Option<GroupTimes>) {
    if base.Some? && local.Some? && remote.Some? then
      Contested(base.value.createdAt, local.value.createdAt, remote.value.createdAt)
    else
      && Contested(base, local, remote)
      && !(base.None? && local.Some? && remote.Some? && local.value.createdAt == remote.value.createdAt)
  }

  /** Some field of the group was changed on both sides in different ways. */
  ghost predicate GroupContested(base: Group, local: Group, remote: Group) {
    || Contested(base.title, local.title, remote.title)
    || TimesContested(base.times, local.times, remote.times)
    || Contested(base.rawState, local.rawState, remote.rawState)
    || Contested(base.opaqueXml, local.opaqueXml, remote.opaqueXml)
    || Contested((base.iconId, base.customIconId), (local.iconId, local.customIconId),
                 (remote.iconId, remote.customIconId))
    || (exists key :: Contested(Get(base.customData, key), Get(local.customData, key), Get(remote.customData, key)))
  }

  lemma GroupConflictsExactly(base: Group, local: Group, remote: Group)
    ensures GM.GroupConflicts(base, local, remote) <==> GroupContested(base, local, remote)
  {
    CustomDataContested(GM.SideOf(base), GM.SideOf(local), GM.SideOf(remote));
    hide CD.UnitsConflict;
  }

  /** Both sides added the group differently, or changed a field of it in different ways. */
  ghost predicate GroupClash(base: FlatVault, local: FlatVault, remote: FlatVault, id: Uuid) {
    && id in local.groups && id in remote.groups
    && if id in base.groups then
         GroupContested(base.groups[id].value, local.groups[id].value, remote.groups[id].value)
       else !HeldAlike(local, remote, id) || !HeldAlike(remote, local, id)
  }

  lemma GroupFailsExactly(v: Versions, id: Uuid)
    requires GM.AllLinked(v)
    ensures GM.GroupOutcome(v, id).Failure? <==> GroupClash(v.base, v.local, v.remote, id)
    ensures GM.GroupOutcome(v, id).Failure? ==>
      GM.GroupOutcome(v, id).error ==
        if id in v.base.groups then FidelityConflict(GroupObject, Some(id), ModeledField)
        else ConcurrentObjectAddition(id)
  {
    HeldAlikeExactly(v.local, v.remote, id);
    hide HeldAlike, GroupContested, SubtreesEqual, InPreserved, PreservedSubtrees, GM.GroupConflicts, GM.MergedRecord;
    if id in v.base.groups && id in v.local.groups && id in v.remote.groups {
      GroupConflictsExactly(v.base.groups[id].value, v.local.groups[id].value, v.remote.groups[id].value);
    }
  }

  ghost predicate NoGroupClash(v: Versions) {
    forall id :: !GroupClash(v.base, v.local, v.remote, id)
  }

  lemma GroupsDecidedExactly(v: Versions)
    requires GM.AllLinked(v)
    ensures GM.AllGroupsDecided(v) <==> NoGroupClash(v)
  {
    hide GM.GroupOutcome, GM.AllLinked, HeldAlike, GroupContested;
    forall id ensures GM.GroupOutcome(v, id).Failure? <==> GroupClash(v.base, v.local, v.remote, id) {
      GroupFailsExactly(v, id);
    }
  }
}
