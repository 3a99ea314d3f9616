/** The order a successful patch gives the children and entries of every group, in terms of the three versions' own orders. */
module SiblingFates {
  import opened Wrappers
  import opened IdOrder
  import opened Model
  import opened Forest
  import opened Tree
  import opened Siblings
  import opened Rebuild
  import opened RebuildInverse
  import opened SiblingOrder
  import opened SiblingMerge
  import opened SiblingPairs
  import opened EntryMerge
  import opened EntrySurvival
  import opened PatchRecords
  import opened ThreeWayPatch
  import opened PatchTheorems
  import opened PatchFates
  import opened PatchOrders
  import opened MetaMerge
  import GM = GroupMerge

  // ---- Orders ----

  /** The merged record's place among its siblings is the one local gave it. */
  ghost predicate FollowsLocal<V>(s: Sides<V>, merged: Records<V>, id: Uuid) {
    && id in s.local && id in merged && merged[id].parent == s.local[id].parent
    && (id in s.remote ==>
          && id in s.base
          && s.base[id].parent.Some? && s.local[id].parent.Some? && s.remote[id].parent.Some?
          && LocalStands(s.base[id].parent, s.local[id].parent, s.remote[id].parent,
                         s.movedAt(s.local[id].value), s.movedAt(s.remote[id].value)))
  }

  lemma FollowsExactly<V>(s: Sides<V>, merged: Records<V>, id: Uuid)
    ensures FollowsLocal(s, merged, id) <==> OrderPrefersLocal(s, merged, id)
  {
  }

  /** Local lists the two next to each other, among those that end up under `p`. */
  ghost predicate LocalNeighbours<V>(s: Sides<V>, merged: Records<V>, p: Uuid, x: Uuid, y: Uuid) {
    && Comes(s.local, p, x, y)
    && !exists z :: z in merged && merged[z].parent == Some(p) && Comes(s.local, p, x, z) && Comes(s.local, p, z, y)
  }

  /** Both stand under `p` in the merged records. */
  ghost predicate AreSiblings<V>(merged: Records<V>, p: Uuid, x: Uuid, y: Uuid) {
    x in merged && y in merged && merged[x].parent == Some(p) && merged[y].parent == Some(p)
  }

  /**
    Those that follow remote keep remote's order, and local neighbours of which
    one follows local keep local's order.
   */
  ghost predicate OrderKept<V>(s: Sides<V>, merged: Records<V>, p: Uuid) {
    forall x, y | AreSiblings(merged, p, x, y) ::
      && (!FollowsLocal(s, merged, x) && !FollowsLocal(s, merged, y) ==>
            (Comes(merged, p, x, y) <==> Comes(s.remote, p, x, y)))
      && ((FollowsLocal(s, merged, x) || FollowsLocal(s, merged, y)) && LocalNeighbours(s, merged, p, x, y) ==>
            Comes(merged, p, x, y))
  }

  // ---- From listed orders to positions ----

  /** Dropping elements keeps the order of the others. */
  lemma {:induction false} WithoutKeepsOrder(q: seq<Uuid>, drop: set<Uuid>, x: Uuid, y: Uuid)
    requires x in q && y in q && x !in drop && y !in drop
    ensures x in Without(q, drop) && y in Without(q, drop)
    ensures Position(Without(q, drop), x) < Position(Without(q, drop), y) <==> Position(q, x) < Position(q, y)
  {
    InWithout(q, drop, x);
    InWithout(q, drop, y);
    if q[0] == x || q[0] == y {
      FirstPosition(q[0], Without(q[1..], drop));
      FirstPosition(q[0], q[1..]);
    } else {
      WithoutKeepsOrder(q[1..], drop, x, y);
      if q[0] !in drop {
        assert Without(q, drop)[0] == q[0] && Without(q, drop)[1..] == Without(q[1..], drop);
      } else {
        assert Without(q, drop) == Without(q[1..], drop);
      }
    }
  }

  lemma FirstPosition(x: Uuid, rest: seq<Uuid>)
    ensures Position([x] + rest, x) == 0
    ensures forall y :: y != x && y in rest ==> Position([x] + rest, y) > 0
  {
    var q := [x] + rest;
    assert q[0] == x;
    forall y | y != x && y in rest ensures Position(q, y) > 0 {
      assert y in q;
      assert q[Position(q, y)] == y;
    }
  }

  /** What follows remote keeps remote's order. */
  lemma RemoteOrderKept<V>(s: Sides<V>, merged: Records<V>, p: Uuid, x: Uuid, y: Uuid)
    requires Covered(s, merged) && MergedOrder(s, merged, p).Success?
    requires x in ChildIds(merged, p) && y in ChildIds(merged, p)
    requires !OrderPrefersLocal(s, merged, x) && !OrderPrefersLocal(s, merged, y)
    ensures var order := MergedOrder(s, merged, p).value;
      Position(order, x) < Position(order, y) <==> Comes(s.remote, p, x, y)
  {
    var finalIds, prefer := ChildIds(merged, p), PreferredIds(s, merged, p);
    var local, remote := SurvivingOrder(s.local, p, finalIds), SurvivingOrder(s.remote, p, finalIds);
    RebasedIsSound(p, s.kind, finalIds, local, remote, prefer);
    var order := MergedOrder(s, merged, p).value;
    assert x in Elements(order) && y in Elements(order);
    assert x in Elements(remote) && y in Elements(remote);
    ListedOrder(s.remote, ChildIds(s.remote, p) * finalIds, p, x, y);
    hide Covered, OrderPrefersLocal, Rebased, Splice, Without, SortIds, Position;
    WithoutKeepsOrder(order, prefer, x, y);
    WithoutKeepsOrder(remote, prefer, x, y);
  }

  /** Local neighbours stay in order when one of them follows local. */
  lemma LocalPairKept<V>(s: Sides<V>, merged: Records<V>, p: Uuid, x: Uuid, y: Uuid)
    requires MergedOrder(s, merged, p).Success?
    requires x in ChildIds(merged, p) && y in ChildIds(merged, p)
    requires OrderPrefersLocal(s, merged, x) || OrderPrefersLocal(s, merged, y)
    requires LocalNeighbours(s, merged, p, x, y)
    ensures var order := MergedOrder(s, merged, p).value; Position(order, x) < Position(order, y)
  {
    var finalIds, prefer := ChildIds(merged, p), PreferredIds(s, merged, p);
    var local, remote := SurvivingOrder(s.local, p, finalIds), SurvivingOrder(s.remote, p, finalIds);
    RebasedIsSound(p, s.kind, finalIds, local, remote, prefer);
    var ids := ChildIds(s.local, p) * finalIds;
    ListedOrder(s.local, ids, p, x, y);
    var i, j := Position(local, x), Position(local, y);
    assert x in Elements(local) && y in Elements(local);
    if i + 1 < j {
      var z := local[i + 1];
      assert z in Elements(local);
      IncreasingIsDistinct(local, Ranks(s.local));
      PositionInDistinct(local, i + 1);
      ListedOrder(s.local, ids, p, x, z);
      ListedOrder(s.local, ids, p, z, y);
      assert false;
    }
    assert local[i] == x && local[i + 1] == y;
  }

  // ---- The returned tree ----

  /** The same records under the same parents, listed in the rebased order. */
  ghost predicate Ordered<V>(s: Sides<V>, merged: Records<V>, final: Records<V>, p: Uuid) {
    && final.Keys == merged.Keys && (forall id :: id in final ==> final[id].parent == merged[id].parent)
    && (ChildIds(merged, p) != {} ==>
          MergedOrder(s, merged, p).Success? && ChildList(final, p) == MergedOrder(s, merged, p).value)
  }

  lemma OrderIsKept<V>(s: Sides<V>, merged: Records<V>, final: Records<V>, p: Uuid)
    requires Covered(s, merged) && Ordered(s, merged, final, p)
    ensures OrderKept(s, final, p)
  {
    hide MergedOrder, ChildList, Covered;
    forall x, y | AreSiblings(final, p, x, y)
      ensures !FollowsLocal(s, final, x) && !FollowsLocal(s, final, y) ==>
        (Comes(final, p, x, y) <==> Comes(s.remote, p, x, y))
      ensures (FollowsLocal(s, final, x) || FollowsLocal(s, final, y)) && LocalNeighbours(s, final, p, x, y) ==>
        Comes(final, p, x, y)
    {
      assert x in ChildIds(merged, p) && y in ChildIds(merged, p);
      FinalPosition(s, merged, final, p, x, y);
      FollowsExactly(s, merged, x);
      FollowsExactly(s, merged, y);
      SameFollowing(s, merged, final, x);
      SameFollowing(s, merged, final, y);
      SameNeighbours(s, merged, final, p, x, y);
      hide FollowsLocal, OrderPrefersLocal, LocalNeighbours, Ordered;
      if !FollowsLocal(s, final, x) && !FollowsLocal(s, final, y) {
        RemoteOrderKept(s, merged, p, x, y);
      } else if LocalNeighbours(s, final, p, x, y) {
        LocalPairKept(s, merged, p, x, y);
      }
    }
  }

  lemma FinalPosition<V>(s: Sides<V>, merged: Records<V>, final: Records<V>, p: Uuid, x: Uuid, y: Uuid)
    requires Ordered(s, merged, final, p) && x in ChildIds(merged, p) && y in ChildIds(merged, p)
    ensures MergedOrder(s, merged, p).Success?
    ensures var order := MergedOrder(s, merged, p).value;
      Comes(final, p, x, y) <==> Position(order, x) < Position(order, y)
  {
    hide MergedOrder;
    ListedOrder(final, ChildIds(final, p), p, x, y);
  }

  lemma SameFollowing<V>(s: Sides<V>, merged: Records<V>, final: Records<V>, id: Uuid)
    requires final.Keys == merged.Keys && forall id :: id in final ==> final[id].parent == merged[id].parent
    ensures FollowsLocal(s, final, id) <==> FollowsLocal(s, merged, id)
  {
  }

  lemma SameNeighbours<V>(s: Sides<V>, merged: Records<V>, final: Records<V>, p: Uuid, x: Uuid, y: Uuid)
    requires final.Keys == merged.Keys && forall id :: id in final ==> final[id].parent == merged[id].parent
    ensures LocalNeighbours(s, final, p, x, y) <==> LocalNeighbours(s, merged, p, x, y)
  {
    hide Comes;
  }

  /** The three versions of the groups and of the entries, with the times they were moved. */
  function GroupVersions(v: GM.Versions): Sides<Group> {
    Sides(GroupObject, v.base.groups, v.local.groups, v.remote.groups, MovedTime)
  }

  function EntryVersions(v: GM.Versions): Sides<Entry> {
    Sides(EntryObject, v.base.entries, v.local.entries, v.remote.entries, (e: Entry) => e.locationChangedAt)
  }

  lemma SameClocks<V>(s: Sides<V>, t: Sides<V>, final: Records<V>, p: Uuid)
    requires s.base == t.base && s.local == t.local && s.remote == t.remote && forall x :: s.movedAt(x) == t.movedAt(x)
    requires OrderKept(s, final, p)
    ensures OrderKept(t, final, p)
  {
    hide Comes;
    forall id ensures FollowsLocal(s, final, id) <==> FollowsLocal(t, final, id) {
    }
    forall x, y ensures LocalNeighbours(s, final, p, x, y) <==> LocalNeighbours(t, final, p, x, y) {
    }
    hide FollowsLocal, LocalNeighbours;
  }

  lemma SameListing<V>(a: Records<V>, b: Records<V>, p: Uuid)
    requires a.Keys == b.Keys && forall id :: id in a ==> a[id].parent == b[id].parent && a[id].order == b[id].order
    ensures ChildList(a, p) == ChildList(b, p)
  {
    assert ChildIds(a, p) == ChildIds(b, p);
    assert Ranks(a) == Ranks(b);
  }

  lemma ReconciledIsOrdered<V>(s: Sides<V>, merged: Records<V>, ordered: Records<V>, final: Records<V>, p: Uuid)
    requires Reconciled(s, merged) == Success(ordered)
    requires final.Keys == ordered.Keys
    requires forall id :: id in final ==> final[id].parent == ordered[id].parent && final[id].order == ordered[id].order
    ensures Ordered(s, merged, final, p)
  {
    hide Reconciled, MergedOrder, ChildList;
    ReconciledIsExact(s, merged);
    SameListing(final, ordered, p);
    if ChildIds(merged, p) != {} {
      var id :| id in ChildIds(merged, p);
      assert p in ParentsOf(merged);
    }
  }

  /** In the returned tree every group keeps its children and its entries in order. */
  lemma SiblingFate(base: Vault, local: Vault, remote: Vault, result: PatchResult, side: Version, p: Uuid)
    requires Patch(base, local, remote) == Success(result)
    ensures Flattened(base, local, remote).Success? && FlattenVault(result.vault, side).Success?
    ensures var v, again := Flattened(base, local, remote).value, FlattenVault(result.vault, side).value;
      OrderKept(GroupVersions(v), again.groups, p) && OrderKept(EntryVersions(v), again.entries, p)
  {
    hide Flattened, Patched, PatchedGroups, RebuildTree, MergedMeta, Patch, GM.OneLineage, WellFormed, FromSurvivors,
         FlattenVault, Rebuilt, EntriesPlaced, GM.SurvivingGroups, SurvivingEntries, Reconciled, GM.GroupsMerged,
         EntriesMerged, OrderKept, Covered, Ordered, GM.AllLinked, GM.AllGroupsDecided, AllEntriesDecided, SameButSlots;
    var v, q := PatchStages(base, local, remote, result);
    FlattenedIsOneLineage(base, local, remote);
    PatchedSteps(v, q);
    PatchedIsWellFormed(v, q);
    RebuildPlacesAll(FlatOf(v, q));
    FlattenOfRebuild(FlatOf(v, q), result.vault, side);
    var again := FlattenVault(result.vault, side).value;
    var merged := PatchedStages(v, q);
    PatchedGroupsAre(v);
    ReconciledGroups(v, q);
    ReconciledEntries(v, q, merged);
    GroupsCovered(v);
    EntriesCovered(v);
    ReconciledIsOrdered(GroupSides(v), GM.SurvivingGroups(v), q.groups, again.groups, p);
    OrderIsKept(GroupSides(v), GM.SurvivingGroups(v), again.groups, p);
    SameClocks(GroupSides(v), GroupVersions(v), again.groups, p);
    ReconciledIsOrdered(EntrySides(v), SurvivingEntries(v), q.entries, again.entries, p);
    OrderIsKept(EntrySides(v), SurvivingEntries(v), again.entries, p);
    SameClocks(EntrySides(v), EntryVersions(v), again.entries, p);
  }

  lemma ReconciledGroups(v: GM.Versions, q: PatchedRecords)
    requires GM.OneLineage(v) && PatchedGroups(v) == Success(q.groups)
    ensures Reconciled(GroupSides(v), GM.SurvivingGroups(v)) == Success(q.groups)
  {
    hide GM.SurvivingGroups, GM.GroupsMerged, Reconciled, ValidateHierarchy, GM.AllGroupsDecided, GM.AllLinked,
         GM.OneLineage;
    GM.LineageIsLinked(v);
    GM.GroupsNeverOrphaned(v);
  }

  lemma ReconciledEntries(v: GM.Versions, q: PatchedRecords, merged: Records<Entry>)
    requires GM.OneLineage(v) && EntriesPlaced(v) && PatchedGroups(v) == Success(q.groups)
    requires EntriesMerged(v, q.groups) == Success(MergedEntries(merged, q.required))
    ensures merged == SurvivingEntries(v)
  {
    hide GM.SurvivingGroups, SurvivingEntries, Reconciled, PatchedGroups, EntriesMerged, GM.OneLineage, AllEntriesDecided;
    LineageIsHoused(v);
    PatchedGroupsAre(v);
    EntriesNeverOrphaned(v, q.groups);
  }
}
