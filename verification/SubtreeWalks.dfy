/** The walks that find out which subtrees changed, were preserved, or are equal. */
module SubtreeWalks {
  import opened Wrappers
  import opened IdOrder
  import opened Model
  import opened Forest
  import opened Tree
  import opened Rebuild
  import opened Subtrees

  method EntryIsBelow(flat: FlatVault, entry: Uuid, root: Uuid) returns (below: bool)
    requires entry in flat.entries
    ensures below == EntryBelow(flat, entry, root)
  {
    hide IsBelow;
    if flat.entries[entry].parent.None? {
      return false;
    }
    below := GroupIsBelowOrSame(flat.groups, flat.entries[entry].parent.value, root);
  }

  /** Whether some group under the root is missing or different on the other side. */
  method FindChangedGroup(flat: FlatVault, other: FlatVault, root: Uuid) returns (changed: bool)
    ensures changed == SomeGroupDiffers(flat, other, root)
  {
    hide IsBelow, Differs;
    var ids := Ascending(flat.groups.Keys);
    for i := 0 to |ids|
      invariant forall j :: 0 <= j < i ==>
        ids[j] in flat.groups && !(IsBelow(flat.groups, ids[j], root) && Differs(flat.groups, other.groups, ids[j]))
    {
      assert ids[i] in Elements(ids);
      var below := GroupIsBelowOrSame(flat.groups, ids[i], root);
      if below && Differs(flat.groups, other.groups, ids[i]) {
        return true;
      }
    }
    forall id | id in flat.groups ensures !(IsBelow(flat.groups, id, root) && Differs(flat.groups, other.groups, id)) {
      assert id in Elements(ids);
    }
    return false;
  }

  method FindChangedEntry(flat: FlatVault, other: FlatVault, root: Uuid) returns (changed: bool)
    ensures changed == SomeEntryDiffers(flat, other, root)
  {
    hide EntryBelow, Differs;
    var ids := Ascending(flat.entries.Keys);
    for i := 0 to |ids|
      invariant forall j :: 0 <= j < i ==>
        ids[j] in flat.entries && !(EntryBelow(flat, ids[j], root) && Differs(flat.entries, other.entries, ids[j]))
    {
      assert ids[i] in Elements(ids);
      var below := EntryIsBelow(flat, ids[i], root);
      if below && Differs(flat.entries, other.entries, ids[i]) {
        return true;
      }
    }
    forall id | id in flat.entries ensures !(EntryBelow(flat, id, root) && Differs(flat.entries, other.entries, id)) {
      assert id in Elements(ids);
    }
    return false;
  }

  method FindChange(base: FlatVault, side: FlatVault, root: Uuid) returns (changed: bool)
    ensures changed == SubtreeChanged(base, side, root)
  {
    hide SomeGroupDiffers, SomeEntryDiffers;
    if root !in base.groups || root !in side.groups || !SameRecord(base.groups[root], side.groups[root]) {
      return true;
    }
    changed := FindChangedGroup(base, side, root);
    if !changed {
      changed := FindChangedEntry(base, side, root);
    }
    if !changed {
      changed := FindChangedGroup(side, base, root);
    }
    if !changed {
      changed := FindChangedEntry(side, base, root);
    }
  }

  ghost predicate IsPreserved(base: FlatVault, survivor: FlatVault, other: FlatVault, id: Uuid) {
    id in survivor.groups && id !in other.groups && SubtreeChanged(base, survivor, id)
  }

  lemma PreservedAre(base: FlatVault, survivor: FlatVault, other: FlatVault, ids: seq<Uuid>, preserved: set<Uuid>)
    requires ids == Ascending(base.groups.Keys)
    requires forall id :: id in preserved <==> id in ids && IsPreserved(base, survivor, other, id)
    ensures preserved == PreservedSubtrees(base, survivor, other)
  {
    hide SubtreeChanged;
    assert forall id :: id in base.groups <==> id in Elements(ids);
  }

  method FindPreserved(base: FlatVault, survivor: FlatVault, other: FlatVault) returns (preserved: set<Uuid>)
    ensures preserved == PreservedSubtrees(base, survivor, other)
  {
    hide SubtreeChanged, PreservedSubtrees;
    preserved := {};
    var ids := Ascending(base.groups.Keys);
    for i := 0 to |ids|
      invariant forall id :: id in preserved <==> id in ids[..i] && IsPreserved(base, survivor, other, id)
    {
      assert ids[..i + 1] == ids[..i] + [ids[i]];
      if ids[i] in survivor.groups && ids[i] !in other.groups {
        var changed := FindChange(base, survivor, ids[i]);
        if changed {
          preserved := preserved + {ids[i]};
        }
      }
    }
    assert ids[..|ids|] == ids;
    PreservedAre(base, survivor, other, ids, preserved);
  }

  method BelongsToPreserved(group: Uuid, survivor: FlatVault, preserved: set<Uuid>) returns (belongs: bool)
    ensures belongs == InPreserved(group, survivor, preserved)
  {
    hide IsBelow;
    var roots := Ascending(preserved);
    for i := 0 to |roots|
      invariant forall j :: 0 <= j < i ==> !IsBelow(survivor.groups, group, roots[j])
    {
      assert roots[i] in Elements(roots);
      belongs := GroupIsBelowOrSame(survivor.groups, group, roots[i]);
      if belongs {
        return;
      }
    }
    forall root | root in preserved ensures !IsBelow(survivor.groups, group, root) {
      assert root in Elements(roots);
    }
    return false;
  }

  // ---- Comparing two subtrees ----

  type Collected<V> = map<Uuid, (Option<Uuid>, V)>

  /** The groups of a subtree, each with its parent and contents. */
  ghost predicate GroupsOf(flat: FlatVault, root: Uuid, c: Collected<Group>) {
    forall id ::
      && (id in c <==> id in flat.groups && IsBelow(flat.groups, id, root))
      && (id in c ==> c[id] == (flat.groups[id].parent, flat.groups[id].value))
  }

  ghost predicate EntriesOf(flat: FlatVault, root: Uuid, c: Collected<Entry>) {
    forall id ::
      && (id in c <==> id in flat.entries && EntryBelow(flat, id, root))
      && (id in c ==> c[id] == (flat.entries[id].parent, flat.entries[id].value))
  }

  method CollectGroups(flat: FlatVault, root: Uuid) returns (collected: Collected<Group>)
    ensures GroupsOf(flat, root, collected)
  {
    hide IsBelow;
    collected := map[];
    var ids := Ascending(flat.groups.Keys);
    assert forall id :: id in flat.groups <==> id in Elements(ids);
    for i := 0 to |ids|
      invariant forall id ::
        && (id in collected <==> id in ids[..i] && IsBelow(flat.groups, id, root))
        && (id in collected ==> id in flat.groups && collected[id] == (flat.groups[id].parent, flat.groups[id].value))
    {
      assert ids[..i + 1] == ids[..i] + [ids[i]] && ids[i] in Elements(ids);
      var below := GroupIsBelowOrSame(flat.groups, ids[i], root);
      if below {
        collected := collected[ids[i] := (flat.groups[ids[i]].parent, flat.groups[ids[i]].value)];
      }
    }
    assert ids[..|ids|] == ids;
  }

  method CollectEntries(flat: FlatVault, root: Uuid) returns (collected: Collected<Entry>)
    ensures EntriesOf(flat, root, collected)
  {
    hide EntryBelow;
    collected := map[];
    var ids := Ascending(flat.entries.Keys);
    assert forall id :: id in flat.entries <==> id in Elements(ids);
    for i := 0 to |ids|
      invariant forall id :: id in collected ==> id in flat.entries
      invariant forall id ::
        && (id in collected <==> id in ids[..i] && id in flat.entries && EntryBelow(flat, id, root))
        && (id in collected ==> collected[id] == (flat.entries[id].parent, flat.entries[id].value))
    {
      assert ids[..i + 1] == ids[..i] + [ids[i]] && ids[i] in Elements(ids);
      var below := EntryIsBelow(flat, ids[i], root);
      if below {
        collected := collected[ids[i] := (flat.entries[ids[i]].parent, flat.entries[ids[i]].value)];
      }
    }
    assert ids[..|ids|] == ids;
  }

  method CompareSubtrees(a: FlatVault, b: FlatVault, root: Uuid) returns (equal: bool)
    ensures equal == SubtreesEqual(a, b, root)
  {
    hide GroupsOf, EntriesOf, GroupsAgreeBelow, EntriesAgreeBelow;
    var groupsA := CollectGroups(a, root);
    var groupsB := CollectGroups(b, root);
    var entriesA := CollectEntries(a, root);
    var entriesB := CollectEntries(b, root);
    SameGroups(a, b, root, groupsA, groupsB);
    SameEntries(a, b, root, entriesA, entriesB);
    return groupsA == groupsB && entriesA == entriesB;
  }

  lemma SameGroups(a: FlatVault, b: FlatVault, root: Uuid, x: Collected<Group>, y: Collected<Group>)
    requires GroupsOf(a, root, x) && GroupsOf(b, root, y)
    ensures x == y <==> GroupsAgreeBelow(a, b, root) && GroupsAgreeBelow(b, a, root)
  {
    hide IsBelow;
    if GroupsAgreeBelow(a, b, root) && GroupsAgreeBelow(b, a, root) {
      assert x.Keys == y.Keys;
      assert forall id :: id in x ==> x[id] == y[id];
    }
    if x == y {
      GroupsAgree(a, b, root, x);
      GroupsAgree(b, a, root, x);
    }
  }

  lemma GroupsAgree(a: FlatVault, b: FlatVault, root: Uuid, x: Collected<Group>)
    requires GroupsOf(a, root, x) && GroupsOf(b, root, x)
    ensures GroupsAgreeBelow(a, b, root)
  {
    hide IsBelow;
    forall id | id in a.groups && IsBelow(a.groups, id, root)
      ensures id in b.groups && IsBelow(b.groups, id, root) && SameRecord(a.groups[id], b.groups[id])
    {
      assert id in x;
    }
  }

  lemma SameEntries(a: FlatVault, b: FlatVault, root: Uuid, x: Collected<Entry>, y: Collected<Entry>)
    requires EntriesOf(a, root, x) && EntriesOf(b, root, y)
    ensures x == y <==> EntriesAgreeBelow(a, b, root) && EntriesAgreeBelow(b, a, root)
  {
    hide EntryBelow;
    if EntriesAgreeBelow(a, b, root) && EntriesAgreeBelow(b, a, root) {
      assert x.Keys == y.Keys;
      assert forall id :: id in x ==> x[id] == y[id];
    }
    if x == y {
      EntriesAgree(a, b, root, x);
      EntriesAgree(b, a, root, x);
    }
  }

  lemma EntriesAgree(a: FlatVault, b: FlatVault, root: Uuid, x: Collected<Entry>)
    requires EntriesOf(a, root, x) && EntriesOf(b, root, x)
    ensures EntriesAgreeBelow(a, b, root)
  {
    hide EntryBelow;
    forall id | id in a.entries && EntryBelow(a, id, root)
      ensures id in b.entries && EntryBelow(b, id, root) && SameRecord(a.entries[id], b.entries[id])
    {
      assert id in x;
    }
  }
}
