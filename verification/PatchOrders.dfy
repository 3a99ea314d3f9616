/** When the sibling lists of a patch can be rebased: for one lineage nothing is ever missing from them. */
module PatchOrders {
  import opened Wrappers
  import opened IdOrder
  import opened Model
  import opened Forest
  import opened Tree
  import opened Siblings
  import opened SiblingOrder
  import opened SiblingMerge
  import opened RecordLaws
  import opened EntrySurvival
  import opened MetaMerge
  import opened PatchRecords
  import opened ThreeWayPatch
  import opened PatchTheorems
  import opened PatchFates
  import opened PatchSuccess
  import opened Subtrees
  import opened Clashes
  import opened EntryMerge
  import GM = GroupMerge

  // ---- Splicing loses and repeats nothing ----

  lemma {:induction false} SpliceHoldsAll(local: seq<Uuid>, prefer: set<Uuid>, order: seq<Uuid>, pending: seq<Uuid>)
    ensures var spliced := Splice(local, prefer, order, pending);
      && |spliced| == |order| + |pending| + |Only(local, prefer)|
      && Elements(spliced) == Elements(order) + Elements(pending) + Elements(Only(local, prefer))
  {
    hide Position;
    if local == [] {
      ElementsConcat(order, pending);
    } else if local[0] in prefer {
      SpliceHoldsAll(local[1..], prefer, order, pending + [local[0]]);
      ElementsConcat(pending, [local[0]]);
      ElementsConcat([local[0]], Only(local[1..], prefer));
    } else if local[0] in order {
      var anchor := Position(order, local[0]);
      SpliceHoldsAll(local[1..], prefer, order[..anchor] + pending + order[anchor..], []);
      ElementsConcat(order[..anchor] + pending, order[anchor..]);
      ElementsConcat(order[..anchor], pending);
      ElementsConcat(order[..anchor], order[anchor..]);
      assert order[..anchor] + order[anchor..] == order;
    } else {
      SpliceHoldsAll(local[1..], prefer, order, pending);
    }
  }

  lemma CoveredElements(finalIds: set<Uuid>, local: seq<Uuid>, remote: seq<Uuid>, prefer: set<Uuid>)
    requires prefer <= Elements(local) && Elements(remote) - prefer == finalIds - prefer && prefer <= finalIds
    ensures Elements(Without(remote, prefer)) == finalIds - prefer && Elements(Only(local, prefer)) == prefer
  {
    hide Without, Only;
    forall x ensures x in Without(remote, prefer) <==> x in finalIds - prefer {
      InWithout(remote, prefer, x);
      assert x in remote <==> x in Elements(remote);
    }
    forall x ensures x in Only(local, prefer) <==> x in prefer {
      InOnly(local, prefer, x);
      assert x in local <==> x in Elements(local);
    }
  }

  /**
    When the two lists cover the final identifiers, the rebase fails exactly when
    the spliced order breaks a pair of local neighbours with a preferred member.
   */
  lemma CoveredRebase(parent: Uuid, kind: ObjectKind, finalIds: set<Uuid>,
                      local: seq<Uuid>, remote: seq<Uuid>, prefer: set<Uuid>)
    requires Distinct(local) && Distinct(remote)
    requires prefer <= Elements(local) && Elements(remote) - prefer == finalIds - prefer && prefer <= finalIds
    ensures Rebased(parent, kind, finalIds, local, remote, prefer).Success?
       <==> !BreaksLocalPair(Splice(local, prefer, Without(remote, prefer), []), local, prefer)
  {
    hide Splice, BreaksLocalPair, Distinct, Elements, Without, Only;
    var rest, taken := Without(remote, prefer), Only(local, prefer);
    SpliceHoldsAll(local, prefer, rest, []);
    CoveredElements(finalIds, local, remote, prefer);
    DistinctWithout(remote, prefer);
    DistinctOnly(local, prefer);
    ElementsSize(rest);
    ElementsSize(taken);
    assert Elements<Uuid>([]) == {} by {
      NoElements();
    }
    assert finalIds == (finalIds - prefer) + prefer;
  }

  lemma NoElements()
    ensures Elements<Uuid>([]) == {}
  {
  }

  // ---- Every surviving sibling is listed by a side it can follow ----

  /** Each merged record stands where local has it, preferred, or where remote has it. */
  ghost predicate Covered<V>(s: Sides<V>, merged: Records<V>) {
    forall id :: id in merged && merged[id].parent.Some? && !OrderPrefersLocal(s, merged, id) ==>
      id in s.remote && s.remote[id].parent == merged[id].parent
  }

  /** A record that stands where local alone has it, where remote has it, or at the merged location. */
  ghost predicate Placed<V>(s: Sides<V>, merged: Records<V>, id: Uuid)
    requires id in merged
  {
    || (id in s.local && id !in s.remote && merged[id].parent == s.local[id].parent)
    || (id in s.remote && merged[id].parent == s.remote[id].parent)
    || (id in s.base && id in s.local && id in s.remote
        && s.base[id].parent.Some? && s.local[id].parent.Some? && s.remote[id].parent.Some?
        && merged[id].parent ==
             Some(MergeLocation(s.base[id].parent.value, s.local[id].parent.value, s.remote[id].parent.value,
                                s.movedAt(s.local[id].value), s.movedAt(s.remote[id].value)).parent))
  }

  lemma PlacedAreCovered<V>(s: Sides<V>, merged: Records<V>)
    requires forall id :: id in merged && merged[id].parent.Some? ==> Placed(s, merged, id)
    ensures Covered(s, merged)
  {
  }

  lemma GroupPlaced(v: GM.Versions, id: Uuid)
    requires GM.AllLinked(v) && GM.AllGroupsDecided(v)
    requires id in GM.SurvivingGroups(v) && GM.SurvivingGroups(v)[id].parent.Some?
    ensures Placed(GroupSides(v), GM.SurvivingGroups(v), id)
  {
    hide GM.SurvivingGroups, GM.AllLinked, GM.AllGroupsDecided, GM.GroupOutcome, MergeLocation;
    GroupSurvives(v, id);
    GroupOutcomeOf(v, id);
    if id in v.base.groups && id in v.local.groups && id in v.remote.groups {
      if id == v.base.rootId {
        RootStays(v);
      } else {
        var location := GM.MergedParentIs(v, id);
      }
    } else if id in v.local.groups && id in v.remote.groups {
      AddedAlikeIsRemotes(v, id);
    }
  }

  lemma RootStays(v: GM.Versions)
    requires GM.AllLinked(v) && GM.AllGroupsDecided(v)
    requires v.base.rootId in v.base.groups && v.base.rootId in v.local.groups && v.base.rootId in v.remote.groups
    ensures v.base.rootId in GM.SurvivingGroups(v) && GM.SurvivingGroups(v)[v.base.rootId].parent.None?
  {
    hide GM.SurvivingGroups, GM.AllGroupsDecided, GM.MergedGroup, GM.GroupConflicts;
    GroupSurvives(v, v.base.rootId);
  }

  lemma GroupsCovered(v: GM.Versions)
    requires GM.AllLinked(v) && GM.AllGroupsDecided(v)
    ensures Covered(GroupSides(v), GM.SurvivingGroups(v))
  {
    hide GM.SurvivingGroups, GM.AllLinked, GM.AllGroupsDecided, Placed, Covered;
    var merged := GM.SurvivingGroups(v);
    forall id | id in merged && merged[id].parent.Some? ensures Placed(GroupSides(v), merged, id) {
      GroupPlaced(v, id);
    }
    PlacedAreCovered(GroupSides(v), merged);
  }

  lemma EntryPlaced(v: GM.Versions, id: Uuid)
    requires EntriesPlaced(v) && AllEntriesDecided(v) && id in SurvivingEntries(v)
    ensures Placed(EntrySides(v), SurvivingEntries(v), id)
  {
    hide SurvivingEntries, AllEntriesDecided, EntryOutcome, MergeLocation, MergedEntry, RequiredForFields, WithLoser,
         DisplacedVersion;
    EntrySurvives(v, id);
    EntryOutcomeOf(v, id);
  }

  lemma EntriesCovered(v: GM.Versions)
    requires EntriesPlaced(v) && AllEntriesDecided(v)
    ensures Covered(EntrySides(v), SurvivingEntries(v))
  {
    hide SurvivingEntries, AllEntriesDecided, EntriesPlaced, Placed, Covered;
    var merged := SurvivingEntries(v);
    forall id | id in merged && merged[id].parent.Some? ensures Placed(EntrySides(v), merged, id) {
      EntryPlaced(v, id);
    }
    PlacedAreCovered(EntrySides(v), merged);
  }

  // ---- When the sibling lists merge ----

  /** The surviving children of `p` that stand there on both sides and follow remote's order. */
  function SharedChildren<V>(s: Sides<V>, merged: Records<V>, p: Uuid): set<Uuid> {
    ChildIds(merged, p) * ChildIds(s.local, p) * ChildIds(s.remote, p) - PreferredIds(s, merged, p)
  }

  /** Both sides list those children in one order. */
  ghost predicate SidesAgree<V>(s: Sides<V>, merged: Records<V>, p: Uuid) {
    var shared := SharedChildren(s, merged, p);
    Only(ChildList(s.local, p), shared) == Only(ChildList(s.remote, p), shared)
  }

  /** Local's order of the surviving children, spliced with remote's, breaks some local pair. */
  ghost predicate BreaksAt<V>(s: Sides<V>, merged: Records<V>, p: Uuid) {
    var finalIds, prefer := ChildIds(merged, p), PreferredIds(s, merged, p);
    var local := SurvivingOrder(s.local, p, finalIds);
    BreaksLocalPair(Splice(local, prefer, Without(SurvivingOrder(s.remote, p, finalIds), prefer), []), local, prefer)
  }

  lemma CoveredSides<V>(s: Sides<V>, merged: Records<V>, p: Uuid)
    requires Covered(s, merged)
    ensures var finalIds, prefer := ChildIds(merged, p), PreferredIds(s, merged, p);
      var local, remote := SurvivingOrder(s.local, p, finalIds), SurvivingOrder(s.remote, p, finalIds);
      && Distinct(local) && Distinct(remote) && prefer <= finalIds
      && Elements(local) == ChildIds(s.local, p) * finalIds && Elements(remote) == ChildIds(s.remote, p) * finalIds
      && prefer <= Elements(local) && Elements(remote) - prefer == finalIds - prefer
  {
    var finalIds := ChildIds(merged, p);
    IncreasingIsDistinct(SurvivingOrder(s.local, p, finalIds), Ranks(s.local));
    IncreasingIsDistinct(SurvivingOrder(s.remote, p, finalIds), Ranks(s.remote));
  }

  /** The sibling list of `p` is refused exactly when a local pair would break. */
  lemma MergedOrderExactly<V>(s: Sides<V>, merged: Records<V>, p: Uuid)
    requires Covered(s, merged)
    ensures MergedOrder(s, merged, p).Success? <==> !BreaksAt(s, merged, p)
  {
    CoveredSides(s, merged, p);
    hide Covered, Distinct, BreaksLocalPair, Splice, Without, Rebased, Elements, SurvivingOrder, PreferredIds, ChildIds;
    var finalIds := ChildIds(merged, p);
    CoveredRebase(p, s.kind, finalIds, SurvivingOrder(s.local, p, finalIds), SurvivingOrder(s.remote, p, finalIds),
                  PreferredIds(s, merged, p));
  }

  lemma {:induction false} KeepThenDrop(q: seq<Uuid>, keep: set<Uuid>, drop: set<Uuid>, left: set<Uuid>)
    requires forall x :: x in q ==> (x in keep && x !in drop <==> x in left)
    ensures Without(Only(q, keep), drop) == Only(q, left)
  {
    if q != [] {
      KeepThenDrop(q[1..], keep, drop, left);
      if q[0] in keep {
        assert Only(q, keep)[0] == q[0] && Only(q, keep)[1..] == Only(q[1..], keep);
      } else {
        assert Only(q, keep) == Only(q[1..], keep) && Only(q, left) == Only(q[1..], left);
      }
    }
  }

  /** Filtering by a larger set first, or by one that agrees on the list, changes nothing. */
  lemma OnlyShared(q: seq<Uuid>, a: set<Uuid>, b: set<Uuid>, shared: set<Uuid>)
    requires shared <= a && forall x :: x in q && x in a ==> (x in b <==> x in shared)
    ensures Only(Only(q, a), b) == Only(q, shared)
  {
    forall x | x in Only(q, a) ensures x in b <==> x in shared {
      InOnly(q, a, x);
    }
    OnlyAgrees(Only(q, a), b, shared);
    OnlyOnly(q, a, shared);
  }

  /** The surviving order without the preferred ones, seen by the other side, is the order of the shared children. */
  lemma SharedOrder<V>(s: Sides<V>, merged: Records<V>, p: Uuid)
    requires Covered(s, merged)
    ensures var finalIds, prefer, shared := ChildIds(merged, p), PreferredIds(s, merged, p), SharedChildren(s, merged, p);
      var local, remote := SurvivingOrder(s.local, p, finalIds), SurvivingOrder(s.remote, p, finalIds);
      && Without(local, prefer) == Only(ChildList(s.local, p), shared)
      && Only(Without(remote, prefer), Elements(local)) == Only(ChildList(s.remote, p), shared)
  {
    CoveredSides(s, merged, p);
    var finalIds, prefer, shared := ChildIds(merged, p), PreferredIds(s, merged, p), SharedChildren(s, merged, p);
    var local, remote := SurvivingOrder(s.local, p, finalIds), SurvivingOrder(s.remote, p, finalIds);
    var l, r := ChildList(s.local, p), ChildList(s.remote, p);
    assert Elements(l) == ChildIds(s.local, p) && Elements(r) == ChildIds(s.remote, p);
    SortOfFiltered(ChildIds(s.local, p), Ranks(s.local), finalIds);
    SortOfFiltered(ChildIds(s.remote, p), Ranks(s.remote), finalIds);
    assert local == Only(l, finalIds) && remote == Only(r, finalIds);
    InElements(l);
    InElements(r);
    hide Covered, SortIds, SurvivingOrder, Only, Without, PreferredIds, ChildIds, ChildList, Distinct, Elements;
    KeepThenDrop(l, finalIds, prefer, shared);
    KeepThenDrop(r, finalIds, prefer, finalIds - prefer);
    OnlyShared(r, finalIds - prefer, Elements(local), shared);
  }

  lemma InElements(q: seq<Uuid>)
    ensures forall x :: x in q <==> x in Elements(q)
  {
  }

  /**
    A sibling list merges whenever the sides agree on the shared children that
    follow remote's order, and then holds both surviving orders; it also merges
    whenever nothing in it follows local's order.
   */
  lemma AgreedOrderMerges<V>(s: Sides<V>, merged: Records<V>, p: Uuid)
    requires Covered(s, merged) && (SidesAgree(s, merged, p) || PreferredIds(s, merged, p) == {})
    ensures MergedOrder(s, merged, p).Success?
    ensures var finalIds, prefer := ChildIds(merged, p), PreferredIds(s, merged, p);
      var local, remote := SurvivingOrder(s.local, p, finalIds), SurvivingOrder(s.remote, p, finalIds);
      var order := MergedOrder(s, merged, p).value;
      && Without(order, prefer) == Without(remote, prefer)
      && (SidesAgree(s, merged, p) ==> Only(order, Elements(local)) == local)
  {
    CoveredSides(s, merged, p);
    SharedOrder(s, merged, p);
    var finalIds, prefer := ChildIds(merged, p), PreferredIds(s, merged, p);
    var local, remote := SurvivingOrder(s.local, p, finalIds), SurvivingOrder(s.remote, p, finalIds);
    hide Covered, Distinct, Splice, Without, Only, Rebased, Elements, SurvivingOrder, PreferredIds, ChildIds;
    if SidesAgree(s, merged, p) {
      AgreeingSidesRebase(p, s.kind, finalIds, local, remote, prefer);
    } else {
      MergedOrderExactly(s, merged, p);
      RebasedIsSound(p, s.kind, finalIds, local, remote, prefer);
    }
  }

  // ---- The whole patch ----

  /** No sibling list, of groups or of entries, would break a local pair. */
  ghost predicate NoListBreaks(v: GM.Versions)
    requires EntriesPlaced(v)
  {
    && (forall p :: p in ParentsOf(GM.SurvivingGroups(v)) ==> !BreaksAt(GroupSides(v), GM.SurvivingGroups(v), p))
    && (forall p :: p in ParentsOf(SurvivingEntries(v)) ==> !BreaksAt(EntrySides(v), SurvivingEntries(v), p))
  }

  /** In every list the sides agree, or nothing follows local's order. */
  ghost predicate ListsAgree(v: GM.Versions)
    requires EntriesPlaced(v)
  {
    && (forall p :: p in ParentsOf(GM.SurvivingGroups(v)) ==>
          || SidesAgree(GroupSides(v), GM.SurvivingGroups(v), p)
          || PreferredIds(GroupSides(v), GM.SurvivingGroups(v), p) == {})
    && (forall p :: p in ParentsOf(SurvivingEntries(v)) ==>
          || SidesAgree(EntrySides(v), SurvivingEntries(v), p)
          || PreferredIds(EntrySides(v), SurvivingEntries(v), p) == {})
  }

  /** Everything the patch asks for besides sibling orders. */
  ghost predicate AllButOrders(base: Vault, local: Vault, remote: Vault, v: GM.Versions)
    requires EntriesPlaced(v)
  {
    && Representable(base, local, remote, v)
    && NoGroupClash(v) && NoEntryClash(v) && Rooted(GM.SurvivingGroups(v), v.base.rootId)
    && MetaMerges(base, local, remote)
  }

  lemma OrdersMergeExactly(v: GM.Versions)
    requires GM.AllLinked(v) && GM.AllGroupsDecided(v) && EntriesPlaced(v) && AllEntriesDecided(v)
    ensures NoListBreaks(v) <==>
      OrdersMerge(GroupSides(v), GM.SurvivingGroups(v)) && OrdersMerge(EntrySides(v), SurvivingEntries(v))
    ensures ListsAgree(v) ==> NoListBreaks(v)
  {
    GroupsCovered(v);
    EntriesCovered(v);
    hide GM.AllLinked, GM.AllGroupsDecided, EntriesPlaced, AllEntriesDecided, GM.SurvivingGroups, SurvivingEntries,
         Covered, BreaksAt, MergedOrder, SidesAgree, PreferredIds, GroupSides, EntrySides, ParentsOf;
    forall p ensures MergedOrder(GroupSides(v), GM.SurvivingGroups(v), p).Success?
                <==> !BreaksAt(GroupSides(v), GM.SurvivingGroups(v), p) {
      MergedOrderExactly(GroupSides(v), GM.SurvivingGroups(v), p);
    }
    forall p ensures MergedOrder(EntrySides(v), SurvivingEntries(v), p).Success?
                <==> !BreaksAt(EntrySides(v), SurvivingEntries(v), p) {
      MergedOrderExactly(EntrySides(v), SurvivingEntries(v), p);
    }
    if ListsAgree(v) {
      forall p | p in ParentsOf(GM.SurvivingGroups(v)) ensures !BreaksAt(GroupSides(v), GM.SurvivingGroups(v), p) {
        AgreedOrderMerges(GroupSides(v), GM.SurvivingGroups(v), p);
      }
      forall p | p in ParentsOf(SurvivingEntries(v)) ensures !BreaksAt(EntrySides(v), SurvivingEntries(v), p) {
        AgreedOrderMerges(EntrySides(v), SurvivingEntries(v), p);
      }
    }
  }

  /**
    Of three trees of one lineage that merge otherwise, sibling orders refuse the
    patch exactly when some list would break a pair of local neighbours; they
    never do when the sides agree on what they share.
   */
  lemma PatchOrdersExactly(base: Vault, local: Vault, remote: Vault)
    requires ThreeTrees(base, local, remote)
    ensures Flattened(base, local, remote).Success?
    ensures var v := Flattened(base, local, remote).value;
      && (Patch(base, local, remote).Success? <==> AllButOrders(base, local, remote, v) && NoListBreaks(v))
      && (AllButOrders(base, local, remote, v) && ListsAgree(v) ==> Patch(base, local, remote).Success?)
  {
    hide ThreeTrees, Flattened, Patch, Representable, Rooted, MetaMerges, GM.AllGroupsDecided, AllEntriesDecided,
         NoGroupClash, NoEntryClash,
         EntriesPlaced, OrdersMerge, NoListBreaks, ListsAgree, GM.OneLineage, GM.AllLinked, GM.SurvivingGroups,
         SurvivingEntries;
    PatchSucceedsExactly(base, local, remote);
    FlattenedIsOneLineage(base, local, remote);
    var v := Flattened(base, local, remote).value;
    GM.LineageIsLinked(v);
    GroupsDecidedExactly(v);
    EntriesDecidedExactly(v);
    if NoGroupClash(v) && NoEntryClash(v) {
      OrdersMergeExactly(v);
    }
  }
}
