/** Two moves that are fine alone and build a cycle together: the patch reports it. */
module CycleExample {
  import opened Wrappers
  import opened IdOrder
  import opened Model
  import opened Forest
  import opened Tree
  import opened Siblings
  import opened SiblingOrder
  import opened SiblingMerge
  import opened GroupHierarchy
  import opened EntrySurvival
  import opened PatchRecords
  import opened ThreeWayPatch
  import opened PatchTheorems
  import opened RecordLaws
  import opened MetaMerge
  import opened PatchLaws
  import CD = CustomData
  import GM = GroupMerge

  function Folder(id: Uuid, children: seq<Group>): Group {
    Group(id, "", None, None, None, map[], [], GroupRawState([], [], []), [], [], children)
  }

  function Holding(root: Group): Vault {
    Vault(root, None, "", None, None, map[], [], [], [], [], [], [])
  }

  /** Folders 1 and 2 side by side; 1 inside 2; and 2 inside 1. */
  const SIDE_BY_SIDE: Vault := Holding(Folder(0, [Folder(1, []), Folder(2, [])]))
  const ONE_IN_TWO: Vault := Holding(Folder(0, [Folder(2, [Folder(1, [])])]))
  const TWO_IN_ONE: Vault := Holding(Folder(0, [Folder(1, [Folder(2, [])])]))

  ghost predicate ParentsAre(flat: FlatVault, one: Uuid, two: Uuid) {
    && flat.groups.Keys == {0, 1, 2} && flat.entries == map[]
    && flat.groups[0].parent == None && flat.groups[1].parent == Some(one) && flat.groups[2].parent == Some(two)
    && flat.groups[1].value == Folder(1, []) && flat.groups[2].value == Folder(2, []) && flat.groups[0].value == Folder(0, [])
  }

  lemma LeafIds(id: Uuid)
    ensures AllGroupIds(Folder(id, [])) == {id} && AllEntryIds(Folder(id, [])) == {} && DistinctGroup(Folder(id, []))
  {
    assert Folder(id, []).children == [];
  }

  lemma PairIds(outer: Uuid, inner: Uuid)
    requires outer != inner
    ensures var g := Folder(outer, [Folder(inner, [])]);
      AllGroupIds(g) == {outer, inner} && AllEntryIds(g) == {} && DistinctGroup(g)
  {
    var g := Folder(outer, [Folder(inner, [])]);
    LeafIds(inner);
    assert g.children[1..] == [];
  }

  lemma SideBySide(side: Version)
    ensures DistinctGroup(SIDE_BY_SIDE.root)
    ensures FlattenVault(SIDE_BY_SIDE, side).Success? && ParentsAre(FlattenVault(SIDE_BY_SIDE, side).value, 0, 0)
  {
    var children := [Folder(1, []), Folder(2, [])];
    LeafIds(1);
    LeafIds(2);
    assert children[1..] == [Folder(2, [])] && children[1..][1..] == [];
    FlattenIsExact(SIDE_BY_SIDE, side);
    var flat := FlattenVault(SIDE_BY_SIDE, side).value;
    assert HoldsChildren(flat, children, 0, 0);
    assert HoldsGroup(flat, children[0], Some(0), 0);
    assert HoldsChildren(flat, children[1..], 1, 0);
    assert HoldsGroup(flat, children[1..][0], Some(0), 1);
  }

  lemma Nested(outer: Uuid, inner: Uuid, side: Version)
    requires (outer == 1 && inner == 2) || (outer == 2 && inner == 1)
    ensures var vault := Holding(Folder(0, [Folder(outer, [Folder(inner, [])])]));
      DistinctGroup(vault.root) && FlattenVault(vault, side).Success?
      && ParentsAre(FlattenVault(vault, side).value, if outer == 2 then 2 else 0, if outer == 1 then 1 else 0)
  {
    var pair := Folder(outer, [Folder(inner, [])]);
    var vault := Holding(Folder(0, [pair]));
    PairIds(outer, inner);
    assert vault.root.children[1..] == [];
    FlattenIsExact(vault, side);
    var flat := FlattenVault(vault, side).value;
    assert HoldsChildren(flat, vault.root.children, 0, 0);
    assert HoldsGroup(flat, pair, Some(0), 0);
    assert HoldsChildren(flat, pair.children, 0, outer);
    assert HoldsGroup(flat, pair.children[0], Some(outer), 0);
  }

  lemma ExampleVersions() returns (v: Versions)
    ensures Flattened(SIDE_BY_SIDE, ONE_IN_TWO, TWO_IN_ONE) == Success(v)
    ensures GM.OneLineage(v) && v.base.rootId == 0
    ensures ParentsAre(v.base, 0, 0) && ParentsAre(v.local, 2, 0) && ParentsAre(v.remote, 0, 1)
  {
    hide DistinctGroup, GM.OneLineage, FlattenVault;
    SideBySide(BaseSide);
    Nested(2, 1, LocalSide);
    Nested(1, 2, RemoteSide);
    FlattenedIsExact(SIDE_BY_SIDE, ONE_IN_TWO, TWO_IN_ONE);
    FlattenedIsOneLineage(SIDE_BY_SIDE, ONE_IN_TWO, TWO_IN_ONE);
    LineageRoot(SIDE_BY_SIDE, ONE_IN_TWO, TWO_IN_ONE);
    v := Flattened(SIDE_BY_SIDE, ONE_IN_TWO, TWO_IN_ONE).value;
  }

  /** Each folder follows the side that moved it. */
  lemma ExampleSurvivors(v: Versions)
    requires ParentsAre(v.base, 0, 0) && ParentsAre(v.local, 2, 0) && ParentsAre(v.remote, 0, 1)
    ensures GM.AllGroupsDecided(v)
    ensures var m := GM.SurvivingGroups(v);
      m.Keys == {0, 1, 2} && m[0].parent == None && m[1].parent == Some(2) && m[2].parent == Some(1)
  {
    hide GM.GroupConflicts, GM.MergedGroup;
    forall id | id in {0, 1, 2}
      ensures GM.GroupOutcome(v, id)
           == Success(Some(GM.MergedRecord(v.base.groups[id], v.local.groups[id], v.remote.groups[id])))
    {
      GroupsDoNotConflict(v.base.groups[id].value, v.local.groups[id].value, v.remote.groups[id].value);
    }
  }

  lemma SingletonOrder(x: Uuid, rank: map<Uuid, nat>)
    ensures SortIds({x}, rank) == [x]
  {
    assert Elements([x]) == {x};
    SortIdsUnique([x], rank);
  }

  /** A single child can always be placed, whichever side it follows. */
  lemma OnlyChildIsOrdered(s: Sides<Group>, merged: Records<Group>, p: Uuid, child: Uuid)
    requires ChildIds(merged, p) == {child}
    requires
      || (ChildIds(s.local, p) == {child} && ChildIds(s.remote, p) == {} && PreferredIds(s, merged, p) == {child})
      || (ChildIds(s.local, p) == {} && ChildIds(s.remote, p) == {child} && PreferredIds(s, merged, p) == {})
    ensures MergedOrder(s, merged, p).Success?
  {
    SingletonOrder(child, Ranks(s.local));
    SingletonOrder(child, Ranks(s.remote));
    assert {child} * {child} == {child} && {} * {child} == {};
    var prefer := PreferredIds(s, merged, p);
    assert Elements([child]) == {child};
    if prefer == {} {
      SpliceNothing([], [child]);
      WithoutNone([child], {});
    } else {
      assert [child][1..] == [] && [] + [child] == [child];
      assert Splice([child], prefer, [], []) == [child];
    }
  }

  lemma {:induction false} NeverAtRoot(m: Records<Group>, id: Uuid, n: nat)
    requires 1 in m && 2 in m && m[1].parent == Some(2) && m[2].parent == Some(1) && (id == 1 || id == 2)
    ensures Ancestor(m, id, n) == Some(1) || Ancestor(m, id, n) == Some(2)
    decreases n
  {
    if n > 0 {
      NeverAtRoot(m, if id == 1 then 2 else 1, n - 1);
    }
  }

  lemma ExampleOrders(v: Versions)
    requires ParentsAre(v.base, 0, 0) && ParentsAre(v.local, 2, 0) && ParentsAre(v.remote, 0, 1)
    ensures Reconciled(GroupSides(v), GM.SurvivingGroups(v)).Success?
  {
    hide GM.SurvivingGroups, MergedOrder, Reconciled, ChildIds, PreferredIds;
    ExampleSurvivors(v);
    var s, m := GroupSides(v), GM.SurvivingGroups(v);
    ReconciledIsExact(s, m);
    ExampleChildren(v, m);
    OnlyChildIsOrdered(s, m, 2, 1);
    OnlyChildIsOrdered(s, m, 1, 2);
    assert ParentsOf(m) == {1, 2};
  }

  lemma ExampleChildren(v: Versions, m: Records<Group>)
    requires ParentsAre(v.base, 0, 0) && ParentsAre(v.local, 2, 0) && ParentsAre(v.remote, 0, 1)
    requires m.Keys == {0, 1, 2} && m[0].parent == None && m[1].parent == Some(2) && m[2].parent == Some(1)
    ensures var s := GroupSides(v);
      && ChildIds(m, 2) == {1} && ChildIds(s.local, 2) == {1} && ChildIds(s.remote, 2) == {} && PreferredIds(s, m, 2) == {1}
      && ChildIds(m, 1) == {2} && ChildIds(s.local, 1) == {} && ChildIds(s.remote, 1) == {2} && PreferredIds(s, m, 1) == {}
  {
  }

  /** A cycle does occur: local puts folder 1 into 2, remote puts 2 into 1. */
  lemma CycleOccurs()
    ensures var v := Flattened(SIDE_BY_SIDE, ONE_IN_TWO, TWO_IN_ONE);
      v.Success? && PatchedGroups(v.value).Failure? && PatchedGroups(v.value).error.GroupCycle?
  {
    hide GM.SurvivingGroups, Reconciled, GM.GroupsMerged, ValidateHierarchy, GM.OneLineage, Flattened;
    var v := ExampleVersions();
    ExampleSurvivors(v);
    ExampleOrders(v);
    GM.LineageIsLinked(v);
    GM.GroupsNeverOrphaned(v);
    var m := GM.SurvivingGroups(v);
    ReconciledIsExact(GroupSides(v), m);
    var ordered := Reconciled(GroupSides(v), m).value;
    SameRootedness(ordered, m, 0);
    ValidateIsExact(0, ordered);
    forall n: nat ensures Ancestor(m, 1, n) != Some(0) {
      NeverAtRoot(m, 1, n);
    }
    assert !IsBelow(m, 1, 0);
  }

  lemma {:induction false} SameGroupsPass(b: FlatVault, l: FlatVault, r: FlatVault, ids: seq<Uuid>)
    requires forall id :: id in b.groups && id in l.groups && id in r.groups ==>
      b.groups[id].value == l.groups[id].value == r.groups[id].value
    ensures AllGroupFidelity(b, l, r, ids).Pass?
  {
    if ids != [] {
      SameGroupsPass(b, l, r, ids[1..]);
    }
  }

  lemma NothingSharedNothingReordered(base: seq<Uuid>, local: seq<Uuid>, remote: seq<Uuid>)
    requires Elements(base) * Elements(local) * Elements(remote) == {}
    ensures !LocalReorders(base, local, remote)
  {
    OnlyNothing(base);
    OnlyNothing(local);
  }

  lemma NothingStaysAnywhere(v: Versions, p: Uuid)
    requires ParentsAre(v.base, 0, 0) && ParentsAre(v.local, 2, 0) && ParentsAre(v.remote, 0, 1)
    ensures ChildIds(v.base.groups, p) * ChildIds(v.local.groups, p) * ChildIds(v.remote.groups, p) == {}
    ensures ChildIds(v.base.entries, p) == {}
  {
  }

  lemma ExampleKeepsOrder(v: Versions, p: Uuid)
    requires ParentsAre(v.base, 0, 0) && ParentsAre(v.local, 2, 0) && ParentsAre(v.remote, 0, 1)
    ensures !EntriesReordered(v.base, v.local, v.remote, p) && !GroupsReordered(v.base, v.local, v.remote, p)
  {
    hide LocalReorders, ChildIds, ParentsAre;
    NothingStaysAnywhere(v, p);
    NothingSharedNothingReordered(ChildList(v.base.entries, p), ChildList(v.local.entries, p), ChildList(v.remote.entries, p));
    NothingSharedNothingReordered(ChildList(v.base.groups, p), ChildList(v.local.groups, p), ChildList(v.remote.groups, p));
  }

  lemma ExampleKeepsOrders(v: Versions)
    requires ParentsAre(v.base, 0, 0) && ParentsAre(v.local, 2, 0) && ParentsAre(v.remote, 0, 1)
    ensures EnsureLocalSiblingOrder(v.base, v.local, v.remote).Pass?
  {
    hide EntriesReordered, GroupsReordered, ParentsAre;
    EnsureLocalSiblingOrderIsExact(v.base, v.local, v.remote);
    forall p ensures !EntriesReordered(v.base, v.local, v.remote, p) && !GroupsReordered(v.base, v.local, v.remote, p) {
      ExampleKeepsOrder(v, p);
    }
  }

  lemma ExamplePreflight(v: Versions)
    requires ParentsAre(v.base, 0, 0) && ParentsAre(v.local, 2, 0) && ParentsAre(v.remote, 0, 1)
    ensures Preflight(SIDE_BY_SIDE, ONE_IN_TWO, TWO_IN_ONE, v).Pass?
  {
    hide AllGroupFidelity, EnsureLocalSiblingOrder, ParentsAre, CD.Replayable;
    ExampleKeepsOrders(v);
    ExampleValues(v);
    SameGroupsPass(v.base, v.local, v.remote, Ascending(v.base.groups.Keys));
    assert Ascending({}) == [];
  }

  lemma ExampleValues(v: Versions)
    requires ParentsAre(v.base, 0, 0) && ParentsAre(v.local, 2, 0) && ParentsAre(v.remote, 0, 1)
    ensures v.base.entries.Keys == {}
    ensures forall id :: id in v.base.groups && id in v.local.groups && id in v.remote.groups ==>
      v.base.groups[id].value == v.local.groups[id].value == v.remote.groups[id].value
  {
  }

  /** The whole patch of the three example vaults is refused for that cycle. */
  lemma PatchReportsCycle()
    ensures var r := Patch(SIDE_BY_SIDE, ONE_IN_TWO, TWO_IN_ONE);
      r.Failure? && r.error.GroupCycle?
  {
    hide Flattened, Preflight, PatchedGroups, EntriesMerged, GM.OneLineage;
    var v := ExampleVersions();
    CycleOccurs();
    ExamplePreflight(v);
  }
}
