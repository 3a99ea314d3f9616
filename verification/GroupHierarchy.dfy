/** When the merged group hierarchy is a tree again. */
module GroupHierarchy {
  import opened Wrappers
  import opened IdOrder
  import opened Model
  import opened Forest
  import opened Tree
  import opened Rebuild
  import opened Siblings
  import opened SiblingMerge
  import opened Subtrees
  import opened GroupMerge

  /** Every merged record has the parent `lead` gives it, or the one `other` gives it when `lead` lacks it. */
  ghost predicate Follows<V>(m: Records<V>, lead: Records<V>, other: Records<V>) {
    forall id :: id in m ==>
      if id in lead then m[id].parent == lead[id].parent
      else id in other && m[id].parent == other[id].parent
  }

  lemma {:induction false} LeadReachesRoot<V>(m: Records<V>, lead: Records<V>, other: Records<V>, root: Uuid, id: Uuid)
    requires Linked(m, root) && Rooted(lead, root) && Follows(m, lead, other)
    requires id in m && id in lead
    ensures IsBelow(m, id, root)
    decreases Depth(lead, root, id)
  {
    if id == root {
      BelowSelf(m, root);
    } else {
      DepthOfChild(lead, root, id);
      LeadReachesRoot(m, lead, other, root, lead[id].parent.value);
      BelowParent(m, id);
      BelowTransitive(m, id, m[id].parent.value, root);
    }
  }

  lemma {:induction false} OtherReachesRoot<V>(m: Records<V>, lead: Records<V>, other: Records<V>, root: Uuid, id: Uuid)
    requires Linked(m, root) && Rooted(lead, root) && Rooted(other, root) && Follows(m, lead, other)
    requires id in m
    ensures IsBelow(m, id, root)
    decreases if id in other then Depth(other, root, id) else 0
  {
    if id in lead {
      LeadReachesRoot(m, lead, other, root, id);
    } else {
      RootedIsLinked(other, root);
      DepthOfChild(other, root, id);
      OtherReachesRoot(m, lead, other, root, other[id].parent.value);
      BelowParent(m, id);
      BelowTransitive(m, id, m[id].parent.value, root);
    }
  }

  /** Records that follow one rooted side, and another only where the first has nothing, form a rooted hierarchy. */
  lemma FollowingIsRooted<V>(m: Records<V>, lead: Records<V>, other: Records<V>, root: Uuid)
    requires Linked(m, root) && Rooted(lead, root) && Rooted(other, root) && Follows(m, lead, other)
    ensures Rooted(m, root)
  {
    forall id | id in m ensures IsBelow(m, id, root) {
      OtherReachesRoot(m, lead, other, root, id);
    }
  }

  /** `side` leaves every group that all three versions hold under its base parent. */
  ghost predicate KeepsParents(v: Versions, side: Records<Group>) {
    forall id :: id in v.base.groups && id in v.local.groups && id in v.remote.groups ==>
      id in side && side[id].parent == v.base.groups[id].parent
  }

  lemma SurvivorParent(v: Versions, id: Uuid)
    requires AllLinked(v) && AllGroupsDecided(v) && id in SurvivingGroups(v)
    requires !(id in v.base.groups && id in v.local.groups && id in v.remote.groups)
    ensures id in v.local.groups ==> SurvivingGroups(v)[id].parent == v.local.groups[id].parent
    ensures id in v.remote.groups ==> SurvivingGroups(v)[id].parent == v.remote.groups[id].parent
    ensures id in v.local.groups || id in v.remote.groups
  {
    assert GroupOutcome(v, id).Success?;
    if id in v.local.groups && id in v.remote.groups {
      BelowSelf(v.local.groups, id);
    }
  }

  lemma RootSurvivor(v: Versions)
    requires AllLinked(v) && AllGroupsDecided(v)
    ensures v.base.rootId in SurvivingGroups(v) && SurvivingGroups(v)[v.base.rootId].parent == None
  {
    SurvivorsAreLinked(v);
  }

  lemma LocalKeeps(v: Versions)
    requires AllLinked(v) && AllGroupsDecided(v) && KeepsParents(v, v.local.groups)
    ensures Follows(SurvivingGroups(v), v.remote.groups, v.local.groups)
  {
    forall id | id in SurvivingGroups(v)
      ensures if id in v.remote.groups then SurvivingGroups(v)[id].parent == v.remote.groups[id].parent
              else id in v.local.groups && SurvivingGroups(v)[id].parent == v.local.groups[id].parent
    {
      if id == v.base.rootId {
        RootSurvivor(v);
      } else if id in v.base.groups && id in v.local.groups && id in v.remote.groups {
        var location := MergedParentIs(v, id);
      } else {
        SurvivorParent(v, id);
      }
    }
  }

  lemma RemoteKeeps(v: Versions)
    requires AllLinked(v) && AllGroupsDecided(v) && KeepsParents(v, v.remote.groups)
    ensures Follows(SurvivingGroups(v), v.local.groups, v.remote.groups)
  {
    forall id | id in SurvivingGroups(v)
      ensures if id in v.local.groups then SurvivingGroups(v)[id].parent == v.local.groups[id].parent
              else id in v.remote.groups && SurvivingGroups(v)[id].parent == v.remote.groups[id].parent
    {
      if id == v.base.rootId {
        RootSurvivor(v);
      } else if id in v.base.groups && id in v.local.groups && id in v.remote.groups {
        var location := MergedParentIs(v, id);
      } else {
        SurvivorParent(v, id);
      }
    }
  }

  /**
    A cycle needs both sides to have moved groups that all three versions hold:
    when either side keeps the base parents of those groups, the merged groups
    form a rooted hierarchy.
   */
  lemma CycleNeedsBothSides(v: Versions)
    requires OneLineage(v) && AllGroupsDecided(v)
    requires KeepsParents(v, v.local.groups) || KeepsParents(v, v.remote.groups)
    ensures Rooted(SurvivingGroups(v), v.base.rootId)
    ensures ValidateHierarchy(v.base.rootId, SurvivingGroups(v)).Pass?
  {
    LineageIsLinked(v);
    SurvivorsAreLinked(v);
    if KeepsParents(v, v.local.groups) {
      LocalKeeps(v);
      FollowingIsRooted(SurvivingGroups(v), v.remote.groups, v.local.groups, v.base.rootId);
    } else {
      RemoteKeeps(v);
      FollowingIsRooted(SurvivingGroups(v), v.local.groups, v.remote.groups, v.base.rootId);
    }
    ValidateIsExact(v.base.rootId, SurvivingGroups(v));
  }

  // ---- Positions do not matter to the hierarchy ----

  lemma {:induction false} SameAncestors<V>(a: Records<V>, b: Records<V>, id: Uuid, n: nat)
    requires SamePlaces(a, b)
    ensures Ancestor(a, id, n) == Ancestor(b, id, n)
    decreases n
  {
    assert ParentOf(a, id) == ParentOf(b, id);
    if n > 0 && ParentOf(a, id).Some? {
      SameAncestors(a, b, ParentOf(a, id).value, n - 1);
    }
  }

  lemma SameRootedness<V>(a: Records<V>, b: Records<V>, root: Uuid)
    requires SamePlaces(a, b)
    ensures Rooted(a, root) <==> Rooted(b, root)
    ensures Linked(a, root) <==> Linked(b, root)
  {
    forall id ensures IsBelow(a, id, root) <==> IsBelow(b, id, root) {
      if IsBelow(a, id, root) {
        SameBelow(a, b, id, root);
      } else if IsBelow(b, id, root) {
        SameBelow(b, a, id, root);
      }
    }
  }

  lemma SameBelow<V>(a: Records<V>, b: Records<V>, id: Uuid, root: Uuid)
    requires SamePlaces(a, b) && IsBelow(a, id, root)
    ensures IsBelow(b, id, root)
  {
    var n :| 0 <= n <= |a| && Ancestor(a, id, n) == Some(root);
    SameAncestors(a, b, id, n);
    ReachedIsBelow(b, id, root, n);
  }
}
