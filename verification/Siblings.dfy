/** Sibling lists of a flattened tree, and why they mirror the tree they came from. */
module Siblings {
  import opened Wrappers
  import opened IdOrder
  import opened Model
  import opened Forest
  import opened Tree

  function ChildIds<V>(m: Records<V>, parent: Uuid): set<Uuid> {
    set id | id in m && m[id].parent == Some(parent)
  }

  function Ranks<V>(m: Records<V>): map<Uuid, nat> {
    map id | id in m :: m[id].order
  }

  /** The children of a parent in order of position, then identifier. */
  function ChildList<V>(m: Records<V>, parent: Uuid): seq<Uuid> {
    SortIds(ChildIds(m, parent), Ranks(m))
  }

  /** The i-th child of every parent has position i. */
  ghost predicate DenseOrders<V>(m: Records<V>) {
    forall p, i :: 0 <= i < |ChildList(m, p)| ==> ChildList(m, p)[i] in m && m[ChildList(m, p)[i]].order == i
  }

  function GroupIdList(groups: seq<Group>): seq<Uuid> {
    seq(|groups|, i requires 0 <= i < |groups| => groups[i].id)
  }

  function EntryIdList(entries: seq<Entry>): seq<Uuid> {
    seq(|entries|, i requires 0 <= i < |entries| => entries[i].id)
  }

  /** Listing a parent's children in the order of their positions gives the child list. */
  lemma ChildListIs<V>(m: Records<V>, parent: Uuid, q: seq<Uuid>)
    requires forall i :: 0 <= i < |q| ==> q[i] in m && m[q[i]].parent == Some(parent) && m[q[i]].order == i
    requires forall id :: id in m && m[id].parent == Some(parent) ==> id in q
    ensures ChildList(m, parent) == q
  {
    var ranks := Ranks(m);
    assert forall i, j :: 0 <= i < j < |q| ==> Before(ranks, q[i], q[j]);
    SortIdsUnique(q, ranks);
    assert Elements(q) == ChildIds(m, parent);
  }

  lemma InChildList<V>(m: Records<V>, parent: Uuid, id: Uuid)
    ensures id in ChildList(m, parent) <==> id in m && m[id].parent == Some(parent)
  {
    assert id in ChildList(m, parent) <==> id in Elements(ChildList(m, parent));
  }

  // ---- The tree mirrored by the sibling lists ----

  /** The sibling lists spell the tree `g`. */
  ghost predicate Mirrors(flat: FlatVault, g: Group)
    decreases g, 1
  {
    && ChildList(flat.groups, g.id) == GroupIdList(g.children)
    && ChildList(flat.entries, g.id) == EntryIdList(g.entries)
    && MirrorsAll(flat, g.children)
  }

  ghost predicate MirrorsAll(flat: FlatVault, groups: seq<Group>)
    decreases groups, 0
  {
    groups == [] || (Mirrors(flat, groups[0]) && MirrorsAll(flat, groups[1..]))
  }

  /** Records placed under a group of the tree are themselves in the tree. */
  ghost predicate Owns(flat: FlatVault, parents: set<Uuid>, groups: set<Uuid>, entries: set<Uuid>) {
    && (forall id :: id in flat.groups && flat.groups[id].parent.Some? && flat.groups[id].parent.value in parents
          ==> id in groups)
    && (forall id :: id in flat.entries && flat.entries[id].parent.Some? && flat.entries[id].parent.value in parents
          ==> id in entries)
  }

  /** Every record of these sets hangs under one of `parents`. */
  ghost predicate HangsUnder(flat: FlatVault, groups: set<Uuid>, entries: set<Uuid>, parents: set<Uuid>) {
    && (forall id :: id in groups ==>
          id in flat.groups && flat.groups[id].parent.Some? && flat.groups[id].parent.value in parents)
    && (forall id :: id in entries ==>
          id in flat.entries && flat.entries[id].parent.Some? && flat.entries[id].parent.value in parents)
  }

  lemma {:induction false} EntriesHang(flat: FlatVault, entries: seq<Entry>, order: nat, parent: Uuid)
    requires HoldsEntries(flat, entries, order, parent)
    ensures HangsUnder(flat, {}, EntryIdsOf(entries), {parent})
  {
    if entries != [] {
      EntriesHang(flat, entries[1..], order + 1, parent);
    }
  }

  lemma {:induction false} GroupHangs(flat: FlatVault, g: Group, parent: Option<Uuid>, order: nat)
    requires HoldsGroup(flat, g, parent, order)
    ensures HangsUnder(flat, AllGroupIdsIn(g.children), AllEntryIds(g), AllGroupIds(g))
    decreases g, 1
  {
    EntriesHang(flat, g.entries, 0, g.id);
    ChildrenHang(flat, g.children, 0, g.id);
  }

  lemma {:induction false} ChildrenHang(flat: FlatVault, children: seq<Group>, order: nat, parent: Uuid)
    requires HoldsChildren(flat, children, order, parent)
    ensures HangsUnder(flat, AllGroupIdsIn(children), {}, {parent} + AllGroupIdsIn(children))
    ensures HangsUnder(flat, {}, AllEntryIdsIn(children), AllGroupIdsIn(children))
    decreases children, 0
  {
    if children != [] {
      GroupHangs(flat, children[0], Some(parent), order);
      ChildrenHang(flat, children[1..], order + 1, parent);
    }
  }

  lemma {:induction false} HoldsChildAt(flat: FlatVault, children: seq<Group>, order: nat, parent: Uuid, i: nat)
    requires HoldsChildren(flat, children, order, parent) && i < |children|
    ensures HoldsGroup(flat, children[i], Some(parent), order + i)
    ensures children[i].id in AllGroupIdsIn(children)
  {
    if i > 0 {
      HoldsChildAt(flat, children[1..], order + 1, parent, i - 1);
    }
  }

  lemma {:induction false} HoldsEntryAt(flat: FlatVault, entries: seq<Entry>, order: nat, parent: Uuid, i: nat)
    requires HoldsEntries(flat, entries, order, parent) && i < |entries|
    ensures entries[i].id in flat.entries
    ensures flat.entries[entries[i].id] == Flat(entries[i], Some(parent), order + i)
  {
    if i > 0 {
      HoldsEntryAt(flat, entries[1..], order + 1, parent, i - 1);
    }
  }

  /** A record among the children either is a child or hangs inside the children. */
  lemma {:induction false} ChildOrInside(flat: FlatVault, children: seq<Group>, order: nat, parent: Uuid, id: Uuid)
    requires HoldsChildren(flat, children, order, parent) && id in AllGroupIdsIn(children)
    ensures id in GroupIdList(children)
      || (id in flat.groups && flat.groups[id].parent.Some? && flat.groups[id].parent.value in AllGroupIdsIn(children))
  {
    if id in AllGroupIds(children[0]) {
      if id == children[0].id {
        assert GroupIdList(children)[0] == id;
      } else {
        GroupHangs(flat, children[0], Some(parent), order);
      }
    } else {
      ChildOrInside(flat, children[1..], order + 1, parent, id);
      if i :| 0 <= i < |children[1..]| && GroupIdList(children[1..])[i] == id {
        assert GroupIdList(children)[i + 1] == id;
      }
    }
  }

  lemma {:induction false} EntryIdListed(entries: seq<Entry>, id: Uuid)
    ensures id in EntryIdsOf(entries) <==> id in EntryIdList(entries)
  {
    if entries != [] {
      EntryIdListed(entries[1..], id);
      assert EntryIdList(entries) == [entries[0].id] + EntryIdList(entries[1..]);
    }
  }

  lemma {:induction false} GroupMirrors(flat: FlatVault, g: Group, parent: Option<Uuid>, order: nat)
    requires HoldsGroup(flat, g, parent, order) && DistinctGroup(g)
    requires Owns(flat, AllGroupIds(g), AllGroupIdsIn(g.children), AllEntryIds(g))
    ensures Mirrors(flat, g)
    decreases g, 1
  {
    ChildrenHang(flat, g.children, 0, g.id);
    EntriesHang(flat, g.entries, 0, g.id);
    GroupListMirrors(flat, g);
    EntryListMirrors(flat, g);
    ChildrenMirror(flat, g.children, 0, g.id);
  }

  lemma GroupListMirrors(flat: FlatVault, g: Group)
    requires HoldsChildren(flat, g.children, 0, g.id) && DistinctGroup(g)
    requires Owns(flat, AllGroupIds(g), AllGroupIdsIn(g.children), AllEntryIds(g))
    ensures ChildList(flat.groups, g.id) == GroupIdList(g.children)
  {
    var q := GroupIdList(g.children);
    forall i | 0 <= i < |q|
      ensures q[i] in flat.groups && flat.groups[q[i]].parent == Some(g.id) && flat.groups[q[i]].order == i
    {
      HoldsChildAt(flat, g.children, 0, g.id, i);
    }
    forall id | id in flat.groups && flat.groups[id].parent == Some(g.id) ensures id in q {
      ChildOrInside(flat, g.children, 0, g.id, id);
    }
    ChildListIs(flat.groups, g.id, q);
  }

  lemma EntryListMirrors(flat: FlatVault, g: Group)
    requires HoldsEntries(flat, g.entries, 0, g.id) && HoldsChildren(flat, g.children, 0, g.id)
    requires DistinctGroup(g) && Owns(flat, AllGroupIds(g), AllGroupIdsIn(g.children), AllEntryIds(g))
    ensures ChildList(flat.entries, g.id) == EntryIdList(g.entries)
  {
    var q := EntryIdList(g.entries);
    ChildrenHang(flat, g.children, 0, g.id);
    forall i | 0 <= i < |q|
      ensures q[i] in flat.entries && flat.entries[q[i]].parent == Some(g.id) && flat.entries[q[i]].order == i
    {
      HoldsEntryAt(flat, g.entries, 0, g.id, i);
    }
    forall id | id in flat.entries && flat.entries[id].parent == Some(g.id) ensures id in q {
      EntryIdListed(g.entries, id);
    }
    ChildListIs(flat.entries, g.id, q);
  }

  lemma {:induction false} ChildrenMirror(flat: FlatVault, children: seq<Group>, order: nat, parent: Uuid)
    requires HoldsChildren(flat, children, order, parent) && DistinctGroups(children)
    requires parent !in AllGroupIdsIn(children)
    requires Owns(flat, AllGroupIdsIn(children), AllGroupIdsIn(children), AllEntryIdsIn(children))
    ensures MirrorsAll(flat, children)
    decreases children, 0
  {
    if children != [] {
      var first, rest := children[0], children[1..];
      ChildrenHang(flat, rest, order + 1, parent);
      GroupHangs(flat, first, Some(parent), order);
      assert flat.groups[first.id].parent == Some(parent);
      assert Owns(flat, AllGroupIdsIn(rest), AllGroupIdsIn(rest), AllEntryIdsIn(rest));
      assert Owns(flat, AllGroupIds(first), AllGroupIdsIn(first.children), AllEntryIds(first));
      GroupMirrors(flat, first, Some(parent), order);
      ChildrenMirror(flat, rest, order + 1, parent);
    }
  }
}
