/** Which records survive, and in which order, when at most one side changed anything. */
module RecordLaws {
  import opened Wrappers
  import opened IdOrder
  import opened Model
  import opened FieldMerge
  import opened Forest
  import opened Tree
  import opened Siblings
  import opened SiblingOrder
  import opened SiblingMerge
  import opened Subtrees
  import opened EntryMerge
  import opened EntrySurvival
  import opened PatchRecords
  import GM = GroupMerge
  import CD = CustomData

  /** The same identifiers under the same parents. */
  ghost predicate PlacedLike<V>(m: Records<V>, target: Records<V>) {
    m.Keys == target.Keys && forall id :: id in m ==> m[id].parent == target[id].parent
  }

  // ---- No conflict without two changes ----

  /** At most one side differs from the base, or both sides agree. */
  predicate OneChange<T(==)>(base: T, local: T, remote: T) {
    local == base || remote == base || local == remote
  }

  lemma GroupsDoNotConflict(base: Group, local: Group, remote: Group)
    requires OneChange(base, local, remote)
    ensures !GM.GroupConflicts(base, local, remote)
  {
  }

  /** One group held by all three versions keeps the parent of the side that moved it. */
  lemma OneSidedGroup(v: Versions, id: Uuid)
    requires GM.AllLinked(v)
    requires id in v.base.groups && id in v.local.groups && id in v.remote.groups
    requires OneChange(v.base.groups[id], v.local.groups[id], v.remote.groups[id])
    requires v.base.rootId == v.local.rootId == v.remote.rootId
    ensures var b, l, r := v.base.groups[id], v.local.groups[id], v.remote.groups[id];
      && GM.GroupOutcome(v, id).Success? && GM.GroupOutcome(v, id).value.Some?
      && GM.GroupOutcome(v, id).value.value.parent == (if l == b || l == r then r.parent else l.parent)
  {
    hide GM.GroupConflicts, GM.MergedGroup, SubtreesEqual, InPreserved;
    var b, l, r := v.base.groups[id], v.local.groups[id], v.remote.groups[id];
    GroupsDoNotConflict(b.value, l.value, r.value);
    assert GM.GroupOutcome(v, id) == Success(Some(GM.MergedRecord(b, l, r)));
  }

  // ---- Local unchanged, or both sides alike: remote's records ----

  ghost predicate RemoteDecides(v: Versions) {
    v.local == v.base || v.local == v.remote
  }

  lemma RemoteGroupOutcome(v: Versions, id: Uuid)
    requires GM.AllLinked(v) && RemoteDecides(v) && v.base.rootId == v.local.rootId == v.remote.rootId
    ensures GM.GroupOutcome(v, id).Success?
    ensures GM.GroupOutcome(v, id).value.Some? <==> id in v.remote.groups
    ensures id in v.remote.groups ==> GM.GroupOutcome(v, id).value.value.parent == v.remote.groups[id].parent
  {
    if id in v.base.groups && id in v.local.groups && id in v.remote.groups {
      OneSidedGroup(v, id);
    } else {
      hide GM.MergedEverywhere;
      NothingPreservedAgainstSelf(v.base, v.remote);
      NothingPreservedWhenBothKeep(v.base, v.remote);
      SubtreesEqualSelf(v.remote, id);
    }
  }

  lemma RemoteGroupsSurvive(v: Versions)
    requires GM.AllLinked(v) && RemoteDecides(v) && v.base.rootId == v.local.rootId == v.remote.rootId
    ensures GM.AllGroupsDecided(v) && PlacedLike(GM.SurvivingGroups(v), v.remote.groups)
  {
    hide GM.GroupOutcome;
    forall id ensures GM.GroupOutcome(v, id).Success?
              ensures GM.GroupOutcome(v, id).value.Some? <==> id in v.remote.groups
              ensures id in v.remote.groups ==>
                GM.GroupOutcome(v, id).value.value.parent == v.remote.groups[id].parent
    {
      RemoteGroupOutcome(v, id);
    }
  }

  lemma RemoteEntryOutcome(v: Versions, id: Uuid)
    requires EntriesPlaced(v) && RemoteDecides(v)
    ensures EntryOutcome(v, id).Success?
    ensures EntryOutcome(v, id).value.Some? <==> id in v.remote.entries
    ensures id in v.remote.entries ==> EntryOutcome(v, id).value.value.record.parent == v.remote.entries[id].parent
  {
    hide MergedEntry, RequiredForFields, SubtreeChanged;
    NothingPreservedAgainstSelf(v.base, v.remote);
  }

  lemma RemoteEntriesSurvive(v: Versions)
    requires EntriesPlaced(v) && RemoteDecides(v)
    ensures AllEntriesDecided(v) && PlacedLike(SurvivingEntries(v), v.remote.entries)
  {
    hide EntryOutcome;
    forall id ensures EntryOutcome(v, id).Success?
              ensures EntryOutcome(v, id).value.Some? <==> id in v.remote.entries
              ensures id in v.remote.entries ==>
                EntryOutcome(v, id).value.value.record.parent == v.remote.entries[id].parent
    {
      RemoteEntryOutcome(v, id);
    }
  }

  lemma {:induction false} SpliceNothing(local: seq<Uuid>, order: seq<Uuid>)
    ensures Splice(local, {}, order, []) == order
  {
    if local != [] {
      var anchor := Position(order, local[0]);
      assert order[..anchor] + [] + order[anchor..] == order;
      SpliceNothing(local[1..], order);
    }
  }

  /** With nothing preferred from local, remote's order stands. */
  lemma RemoteOrderStands<V>(s: Sides<V>, merged: Records<V>, p: Uuid)
    requires PlacedLike(merged, s.remote) && (s.local == s.base || s.local == s.remote)
    ensures MergedOrder(s, merged, p) == Success(ChildList(s.remote, p))
  {
    hide Before, Increasing, SortIds;
    var finalIds := ChildIds(merged, p);
    var remote := ChildList(s.remote, p);
    assert ChildIds(s.remote, p) == finalIds;
    assert finalIds * finalIds == finalIds;
    assert PreferredIds(s, merged, p) == {};
    WithoutNone(remote, {});
    SpliceNothing(SurvivingOrder(s.local, p, finalIds), remote);
    IncreasingIsDistinct(remote, Ranks(s.remote));
    ElementsSize(remote);
  }

  // ---- Remote unchanged: local's records ----

  lemma LocalGroupOutcome(v: Versions, id: Uuid)
    requires GM.AllLinked(v) && v.remote == v.base && v.base.rootId == v.local.rootId
    ensures GM.GroupOutcome(v, id).Success?
    ensures GM.GroupOutcome(v, id).value.Some? <==> id in v.local.groups
    ensures id in v.local.groups ==> GM.GroupOutcome(v, id).value.value.parent == v.local.groups[id].parent
  {
    if id in v.base.groups && id in v.local.groups {
      OneSidedGroup(v, id);
    } else {
      hide GM.MergedEverywhere;
      NothingPreservedAgainstSelf(v.base, v.local);
    }
  }

  lemma LocalGroupsSurvive(v: Versions)
    requires GM.AllLinked(v) && v.remote == v.base && v.base.rootId == v.local.rootId
    ensures GM.AllGroupsDecided(v) && PlacedLike(GM.SurvivingGroups(v), v.local.groups)
  {
    hide GM.GroupOutcome;
    forall id ensures GM.GroupOutcome(v, id).Success?
              ensures GM.GroupOutcome(v, id).value.Some? <==> id in v.local.groups
              ensures id in v.local.groups ==>
                GM.GroupOutcome(v, id).value.value.parent == v.local.groups[id].parent
    {
      LocalGroupOutcome(v, id);
    }
  }

  lemma LocalEntryOutcome(v: Versions, id: Uuid)
    requires EntriesPlaced(v) && v.remote == v.base
    ensures EntryOutcome(v, id).Success?
    ensures EntryOutcome(v, id).value.Some? <==> id in v.local.entries
    ensures id in v.local.entries ==> EntryOutcome(v, id).value.value.record.parent == v.local.entries[id].parent
  {
    hide MergedEntry, RequiredForFields, SubtreeChanged;
    NothingPreservedAgainstSelf(v.base, v.local);
  }

  lemma LocalEntriesSurvive(v: Versions)
    requires EntriesPlaced(v) && v.remote == v.base
    ensures AllEntriesDecided(v) && PlacedLike(SurvivingEntries(v), v.local.entries)
  {
    hide EntryOutcome;
    forall id ensures EntryOutcome(v, id).Success?
              ensures EntryOutcome(v, id).value.Some? <==> id in v.local.entries
              ensures id in v.local.entries ==>
                EntryOutcome(v, id).value.value.record.parent == v.local.entries[id].parent
    {
      LocalEntryOutcome(v, id);
    }
  }

  /** Local keeps the base order of the children that stayed under `p`. */
  ghost predicate KeepsOrder<V>(base: Records<V>, local: Records<V>, p: Uuid) {
    var stayed := ChildIds(base, p) * ChildIds(local, p);
    Only(ChildList(local, p), stayed) == Only(ChildList(base, p), stayed)
  }

  lemma {:induction false} OnlyIncreases(q: seq<Uuid>, rank: map<Uuid, nat>, keep: set<Uuid>)
    requires Increasing(q, rank)
    ensures Increasing(Only(q, keep), rank)
  {
    if q != [] {
      var rest := Only(q[1..], keep);
      OnlyIncreases(q[1..], rank, keep);
      forall j | 0 <= j < |rest| ensures Before(rank, q[0], rest[j]) {
        InOnly(q[1..], keep, rest[j]);
        var k :| 0 <= k < |q[1..]| && q[1..][k] == rest[j];
        assert Before(rank, q[0], q[k + 1]);
      }
    }
  }

  /** Filtering a sorted list is sorting the filtered set. */
  lemma SortOfFiltered(s: set<Uuid>, rank: map<Uuid, nat>, keep: set<Uuid>)
    ensures SortIds(s * keep, rank) == Only(SortIds(s, rank), keep)
  {
    var q := SortIds(s, rank);
    OnlyIncreases(q, rank, keep);
    forall x ensures x in Only(q, keep) <==> x in s * keep {
      InOnly(q, keep, x);
      assert x in q <==> x in Elements(q);
    }
    assert Elements(Only(q, keep)) == s * keep;
    SortIdsUnique(Only(q, keep), rank);
  }

  lemma {:induction false} WithoutIsOnly(q: seq<Uuid>, drop: set<Uuid>, keep: set<Uuid>)
    requires forall x :: x in q ==> (x in drop <==> x !in keep)
    ensures Without(q, drop) == Only(q, keep)
  {
    if q != [] {
      WithoutIsOnly(q[1..], drop, keep);
    }
  }

  lemma {:induction false} OnlyAgrees(q: seq<Uuid>, a: set<Uuid>, b: set<Uuid>)
    requires forall x :: x in q ==> (x in a <==> x in b)
    ensures Only(q, a) == Only(q, b)
  {
    if q != [] {
      OnlyAgrees(q[1..], a, b);
    }
  }

  /** Only records that are roots in one version are roots in the other. */
  ghost predicate SameRoots<V>(a: Records<V>, b: Records<V>) {
    forall id :: id in a && id in b ==> (a[id].parent.None? <==> b[id].parent.None?)
  }

  lemma PreferredAreMovedOrNew<V>(s: Sides<V>, merged: Records<V>, p: Uuid)
    requires PlacedLike(merged, s.local) && s.remote == s.base && SameRoots(s.base, s.local)
    ensures PreferredIds(s, merged, p) == ChildIds(s.local, p) - ChildIds(s.base, p)
  {
  }

  /** What is left of the base order, among local's children, is local's own order of them. */
  lemma StayedOrder<V>(s: Sides<V>, p: Uuid)
    requires KeepsOrder(s.base, s.local, p)
    ensures var local, stayed := ChildList(s.local, p), ChildIds(s.base, p) * ChildIds(s.local, p);
      && SurvivingOrder(s.base, p, ChildIds(s.local, p)) == Only(local, stayed)
      && Without(local, ChildIds(s.local, p) - ChildIds(s.base, p)) == Only(local, stayed)
  {
    var local, base := ChildList(s.local, p), ChildList(s.base, p);
    var stayed := ChildIds(s.base, p) * ChildIds(s.local, p);
    SortOfFiltered(ChildIds(s.base, p), Ranks(s.base), ChildIds(s.local, p));
    forall x | x in base ensures x in ChildIds(s.local, p) <==> x in stayed {
      assert x in Elements(base);
    }
    OnlyAgrees(base, ChildIds(s.local, p), stayed);
    forall x | x in local ensures x in ChildIds(s.local, p) - ChildIds(s.base, p) <==> x !in stayed {
      assert x in Elements(local);
    }
    WithoutIsOnly(local, ChildIds(s.local, p) - ChildIds(s.base, p), stayed);
  }

  /** With remote unchanged and no stayed sibling reordered, local's order stands. */
  lemma LocalOrderStands<V>(s: Sides<V>, merged: Records<V>, p: Uuid)
    requires PlacedLike(merged, s.local) && s.remote == s.base && SameRoots(s.base, s.local)
    requires KeepsOrder(s.base, s.local, p)
    ensures MergedOrder(s, merged, p) == Success(ChildList(s.local, p))
  {
    var finalIds := ChildIds(s.local, p);
    assert ChildIds(merged, p) == finalIds && finalIds * finalIds == finalIds;
    var local, remote := ChildList(s.local, p), SurvivingOrder(s.base, p, finalIds);
    var prefer := finalIds - ChildIds(s.base, p);
    PreferredAreMovedOrNew(s, merged, p);
    StayedOrder(s, p);
    IncreasingIsDistinct(local, Ranks(s.local));
    IncreasingIsDistinct(remote, Ranks(s.base));
    assert Elements(local) == finalIds;
    assert forall x :: x in remote <==> x in Elements(remote);
    WithoutNone(remote, prefer);
    OnlyAll(remote, finalIds);
    AgreeingSidesRebase(p, s.kind, finalIds, local, remote, prefer);
    var order := Rebased(p, s.kind, finalIds, local, remote, prefer).value;
    RebasedIsSound(p, s.kind, finalIds, local, remote, prefer);
    assert forall x :: x in order <==> x in Elements(order);
    OnlyAll(order, finalIds);
  }
}
