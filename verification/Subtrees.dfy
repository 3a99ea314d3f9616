/** Which subtrees changed since the base, and which of those must survive a deletion on the other side. */
module Subtrees {
  import opened Wrappers
  import opened IdOrder
  import opened Model
  import opened Forest
  import opened Tree
  import opened Rebuild

  /** The same object under the same parent; positions do not count. */
  predicate SameRecord<V(==)>(a: Flat<V>, b: Flat<V>) {
    a.parent == b.parent && a.value == b.value
  }

  /** `other` lacks the record or holds a different one. */
  predicate Differs<V(==)>(m: Records<V>, other: Records<V>, id: Uuid)
    requires id in m
  {
    id !in other || !SameRecord(m[id], other[id])
  }

  predicate EntryBelow(flat: FlatVault, entry: Uuid, root: Uuid)
    requires entry in flat.entries
  {
    flat.entries[entry].parent.Some? && IsBelow(flat.groups, flat.entries[entry].parent.value, root)
  }

  predicate SomeGroupDiffers(flat: FlatVault, other: FlatVault, root: Uuid) {
    exists id | id in flat.groups :: IsBelow(flat.groups, id, root) && Differs(flat.groups, other.groups, id)
  }

  predicate SomeEntryDiffers(flat: FlatVault, other: FlatVault, root: Uuid) {
    exists id | id in flat.entries :: EntryBelow(flat, id, root) && Differs(flat.entries, other.entries, id)
  }

  predicate SubtreeChanged(base: FlatVault, side: FlatVault, root: Uuid) {
    || root !in base.groups
    || root !in side.groups
    || !SameRecord(base.groups[root], side.groups[root])
    || SomeGroupDiffers(base, side, root)
    || SomeEntryDiffers(base, side, root)
    || SomeGroupDiffers(side, base, root)
    || SomeEntryDiffers(side, base, root)
  }

  /** Groups one side deleted although the other side changed something inside them. */
  function PreservedSubtrees(base: FlatVault, survivor: FlatVault, other: FlatVault): set<Uuid> {
    set id | id in base.groups && id in survivor.groups && id !in other.groups && SubtreeChanged(base, survivor, id)
  }

  predicate InPreserved(group: Uuid, survivor: FlatVault, preserved: set<Uuid>) {
    exists root | root in preserved :: IsBelow(survivor.groups, group, root)
  }

  predicate GroupsAgreeBelow(a: FlatVault, b: FlatVault, root: Uuid) {
    forall id | id in a.groups && IsBelow(a.groups, id, root) ::
      id in b.groups && IsBelow(b.groups, id, root) && SameRecord(a.groups[id], b.groups[id])
  }

  predicate EntriesAgreeBelow(a: FlatVault, b: FlatVault, root: Uuid) {
    forall id | id in a.entries && EntryBelow(a, id, root) ::
      id in b.entries && EntryBelow(b, id, root) && SameRecord(a.entries[id], b.entries[id])
  }

  /** Both subtrees hold the same objects in the same places. */
  predicate SubtreesEqual(a: FlatVault, b: FlatVault, root: Uuid) {
    && GroupsAgreeBelow(a, b, root) && GroupsAgreeBelow(b, a, root)
    && EntriesAgreeBelow(a, b, root) && EntriesAgreeBelow(b, a, root)
  }

  // ---- Change is visible from above ----

  /** A group that differs from the base marks every group above it as changed. */
  lemma ChangeAbove(base: FlatVault, side: FlatVault, id: Uuid, root: Uuid)
    requires id in side.groups && Differs(side.groups, base.groups, id)
    requires IsBelow(side.groups, id, root)
    ensures SubtreeChanged(base, side, root)
  {
  }

  lemma EntryChangeAbove(base: FlatVault, side: FlatVault, id: Uuid, root: Uuid)
    requires id in side.entries && Differs(side.entries, base.entries, id) && EntryBelow(side, id, root)
    ensures SubtreeChanged(base, side, root)
  {
  }

  lemma GroupDiffersAbove(flat: FlatVault, other: FlatVault, root: Uuid, parent: Uuid)
    requires IsBelow(flat.groups, root, parent)
    ensures SomeGroupDiffers(flat, other, root) ==> SomeGroupDiffers(flat, other, parent)
    ensures SomeEntryDiffers(flat, other, root) ==> SomeEntryDiffers(flat, other, parent)
  {
    if SomeGroupDiffers(flat, other, root) {
      var id :| id in flat.groups && IsBelow(flat.groups, id, root) && Differs(flat.groups, other.groups, id);
      BelowTransitive(flat.groups, id, root, parent);
    }
    if SomeEntryDiffers(flat, other, root) {
      var id :| id in flat.entries && EntryBelow(flat, id, root) && Differs(flat.entries, other.entries, id);
      BelowTransitive(flat.groups, flat.entries[id].parent.value, root, parent);
    }
  }

  /** A changed subtree makes the subtree of its parent changed. */
  lemma ChangeReachesParent(base: FlatVault, side: FlatVault, id: Uuid, parent: Uuid)
    requires id in base.groups && id in side.groups && side.groups[id].parent == Some(parent)
    requires SubtreeChanged(base, side, id)
    ensures SubtreeChanged(base, side, parent)
  {
    BelowParent(side.groups, id);
    if SameRecord(base.groups[id], side.groups[id]) {
      BelowParent(base.groups, id);
      GroupDiffersAbove(base, side, id, parent);
      GroupDiffersAbove(side, base, id, parent);
    } else {
      ChangeAbove(base, side, id, parent);
    }
  }

  /** Preservation is closed upward: a preserved group's parent survives on that side. */
  lemma PreservedParent(base: FlatVault, survivor: FlatVault, other: FlatVault, id: Uuid, parent: Uuid)
    requires id in base.groups && id in survivor.groups && survivor.groups[id].parent == Some(parent)
    requires InPreserved(id, survivor, PreservedSubtrees(base, survivor, other))
    requires parent in base.groups && parent in survivor.groups && parent !in other.groups
    ensures InPreserved(parent, survivor, PreservedSubtrees(base, survivor, other))
  {
    var preserved := PreservedSubtrees(base, survivor, other);
    var root :| root in preserved && IsBelow(survivor.groups, id, root);
    if root == id {
      ChangeReachesParent(base, survivor, id, parent);
      BelowSelf(survivor.groups, parent);
      assert parent in preserved;
    } else {
      BelowThroughParent(survivor.groups, id, root);
    }
  }

  /** A changed group keeps its deleted parent alive. */
  lemma ChangedChildPreserves(base: FlatVault, survivor: FlatVault, other: FlatVault, id: Uuid, parent: Uuid)
    requires id in survivor.groups && survivor.groups[id].parent == Some(parent)
    requires Differs(survivor.groups, base.groups, id)
    requires parent in base.groups && parent in survivor.groups && parent !in other.groups
    ensures InPreserved(parent, survivor, PreservedSubtrees(base, survivor, other))
  {
    BelowParent(survivor.groups, id);
    ChangeAbove(base, survivor, id, parent);
    BelowSelf(survivor.groups, parent);
    assert parent in PreservedSubtrees(base, survivor, other);
  }

  /** A changed entry keeps its deleted group alive. */
  lemma ChangedEntryPreserves(base: FlatVault, survivor: FlatVault, other: FlatVault, id: Uuid, parent: Uuid)
    requires id in survivor.entries && survivor.entries[id].parent == Some(parent)
    requires Differs(survivor.entries, base.entries, id)
    requires parent in base.groups && parent in survivor.groups && parent !in other.groups
    ensures InPreserved(parent, survivor, PreservedSubtrees(base, survivor, other))
  {
    BelowSelf(survivor.groups, parent);
    EntryChangeAbove(base, survivor, id, parent);
    assert parent in PreservedSubtrees(base, survivor, other);
  }

  /** Nothing changed against itself, so nothing is preserved. */
  lemma NothingPreservedAgainstSelf(base: FlatVault, other: FlatVault)
    ensures PreservedSubtrees(base, base, other) == {}
  {
  }

  lemma NothingPreservedWhenBothKeep(base: FlatVault, side: FlatVault)
    ensures PreservedSubtrees(base, side, side) == {}
  {
  }

  lemma SubtreesEqualSelf(flat: FlatVault, root: Uuid)
    ensures SubtreesEqual(flat, flat, root)
  {
  }
}
