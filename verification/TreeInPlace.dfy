/** Flattening and rebuilding as the recursive procedures that fill and empty their arguments. */
module TreeInPlace {
  import opened Wrappers
  import opened IdOrder
  import opened Model
  import opened Normalize
  import opened Forest
  import opened Tree
  import opened Siblings
  import opened Rebuild

  method FlattenEntriesInto(entries: seq<Entry>, parent: Uuid, side: Version, flat: FlatVault)
    returns (result: Result<FlatVault, PatchError>)
    ensures result == FlattenEntries(entries, 0, parent, side, flat)
  {
    var current := flat;
    for i := 0 to |entries|
      invariant FlattenEntries(entries[i..], i, parent, side, current) == FlattenEntries(entries, 0, parent, side, flat)
    {
      assert entries[i..][0] == entries[i] && entries[i..][1..] == entries[i + 1..];
      if entries[i].id in current.entries {
        return Failure(DuplicateEntry(side, entries[i].id));
      }
      current := current.(entries := current.entries[entries[i].id := Flat(entries[i], Some(parent), i)]);
    }
    return Success(current);
  }

  method FlattenGroupInto(g: Group, parent: Option<Uuid>, order: nat, side: Version, flat: FlatVault)
    returns (result: Result<FlatVault, PatchError>)
    ensures result == FlattenGroup(g, parent, order, side, flat)
    decreases g, 1
  {
    hide FlattenEntries;
    if g.id in flat.groups {
      return Failure(DuplicateGroup(side, g.id));
    }
    var withGroup := flat.(groups := flat.groups[g.id := Flat(Shell(g), parent, order)]);
    var withEntries := FlattenEntriesInto(g.entries, g.id, side, withGroup);
    if withEntries.Failure? {
      return Failure(withEntries.error);
    }
    var current := withEntries.value;
    for i := 0 to |g.children|
      invariant FlattenChildren(g.children[i..], i, g.id, side, current)
             == FlattenChildren(g.children, 0, g.id, side, withEntries.value)
    {
      var rest := g.children[i..];
      assert rest[0] == g.children[i] && rest[1..] == g.children[i + 1..];
      var next := FlattenGroupInto(g.children[i], Some(g.id), i, side, current);
      if next.Failure? {
        return Failure(next.error);
      }
      current := next.value;
    }
    return Success(current);
  }

  method FlattenInPlace(vault: Vault, side: Version) returns (result: Result<FlatVault, PatchError>)
    ensures result == FlattenVault(vault, side)
  {
    result := FlattenGroupInto(vault.root, None, 0, side, FlatVault(vault.root.id, map[], map[]));
  }

  /** What is still to be rebuilt, put behind what is rebuilt already. */
  function Onto(built: seq<Group>, rest: Result<seq<Group>, PatchError>): Result<seq<Group>, PatchError> {
    match rest
    case Success(groups) => Success(built + groups)
    case Failure(e) => Failure(e)
  }

  lemma BuildStep(built: seq<Group>, ids: seq<Uuid>, i: nat, groups: Records<Group>, entries: Records<Entry>,
                  visiting: set<Uuid>)
    requires i < |ids|
    ensures Onto(built, RebuildAll(ids[i..], groups, entries, visiting)) ==
      match RebuildTree(ids[i], groups, entries, visiting)
      case Failure(e) => Failure(e)
      case Success(first) => Onto(built + [first], RebuildAll(ids[i + 1..], groups, entries, visiting))
  {
    hide RebuildTree;
    assert ids[i..][0] == ids[i] && ids[i..][1..] == ids[i + 1..];
    var rest := RebuildAll(ids[i + 1..], groups, entries, visiting);
    if rest.Success? && RebuildTree(ids[i], groups, entries, visiting).Success? {
      var first := RebuildTree(ids[i], groups, entries, visiting).value;
      assert built + ([first] + rest.value) == (built + [first]) + rest.value;
    }
  }

  /** The identifiers filed under a parent are picked out and sorted. */
  method CollectChildren<V>(m: Records<V>, parent: Uuid) returns (ids: seq<Uuid>)
    ensures ids == ChildList(m, parent)
  {
    hide SortIds;
    var all, found := Ascending(m.Keys), {};
    assert forall id :: id in m <==> id in Elements(all);
    for i := 0 to |all|
      invariant found == set id | id in all[..i] && id in m && m[id].parent == Some(parent)
    {
      assert all[..i + 1] == all[..i] + [all[i]] && all[i] in Elements(all);
      if m[all[i]].parent == Some(parent) {
        found := found + {all[i]};
      }
    }
    assert all[..|all|] == all;
    assert found == ChildIds(m, parent);
    return SortIds(found, Ranks(m));
  }

  method CollectEntries(entries: Records<Entry>, parent: Uuid) returns (list: seq<Entry>)
    ensures list == EntriesUnder(entries, parent)
  {
    hide ChildList;
    var ids := CollectChildren(entries, parent);
    list := [];
    assert forall id :: id in ids ==> id in Elements(ids);
    ChildrenFiled(entries, parent);
    for i := 0 to |ids|
      invariant |list| == i && forall j :: 0 <= j < i ==> ids[j] in entries && list[j] == entries[ids[j]].value
    {
      list := list + [entries[ids[i]].value];
    }
  }

  lemma ChildrenFiled<V>(m: Records<V>, parent: Uuid)
    ensures forall id :: id in ChildList(m, parent) ==> id in m
  {
    assert forall id :: id in ChildList(m, parent) ==> id in Elements(ChildList(m, parent));
  }

  method RebuildInPlace(id: Uuid, groups: Records<Group>, entries: Records<Entry>, visiting: set<Uuid>)
    returns (result: Result<Group, PatchError>)
    ensures result == RebuildTree(id, groups, entries, visiting)
    decreases groups.Keys - visiting
  {
    hide NormalizeGroupSlots, EntriesUnder, ChildList;
    if id in visiting {
      return Failure(GroupCycle(id));
    }
    if id !in groups {
      return Failure(MissingParent(id));
    }
    var ids := CollectChildren(groups, id);
    var inside := visiting + {id};
    ghost var whole := RebuildAll(ids, groups, entries, inside);
    var built: seq<Group> := [];
    assert ids[0..] == ids && Onto([], whole) == whole by {
      if whole.Success? {
        assert [] + whole.value == whole.value;
      }
    }
    for i := 0 to |ids|
      invariant Onto(built, RebuildAll(ids[i..], groups, entries, inside)) == whole
    {
      BuildStep(built, ids, i, groups, entries, inside);
      var child := RebuildInPlace(ids[i], groups, entries, inside);
      if child.Failure? {
        return Failure(child.error);
      }
      built := built + [child.value];
    }
    assert built + [] == built;
    var filed := CollectEntries(entries, id);
    var rebuilt := NormalizeGroupInPlace(groups[id].value.(children := built, entries := filed));
    return Success(rebuilt);
  }
}
