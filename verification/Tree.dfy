/** Flattening a group tree into identifier-keyed records. */
module Tree {
  import opened Wrappers
  import opened IdOrder
  import opened Model
  import opened Forest

  datatype FlatVault = FlatVault(rootId: Uuid, groups: Records<Group>, entries: Records<Entry>)

  /** A group without its contents. */
  function Shell(g: Group): Group {
    g.(entries := [], children := [])
  }

  function FlattenEntries(entries: seq<Entry>, order: nat, parent: Uuid, side: Version, flat: FlatVault)
    : Result<FlatVault, PatchError>
  {
    if entries == [] then Success(flat)
    else if entries[0].id in flat.entries then Failure(DuplicateEntry(side, entries[0].id))
    else
      FlattenEntries(entries[1..], order + 1, parent, side,
        flat.(entries := flat.entries[entries[0].id := Flat(entries[0], Some(parent), order)]))
  }

  function FlattenGroup(g: Group, parent: Option<Uuid>, order: nat, side: Version, flat: FlatVault)
    : Result<FlatVault, PatchError>
    decreases g, 1
  {
    if g.id in flat.groups then Failure(DuplicateGroup(side, g.id))
    else
      var withGroup := flat.(groups := flat.groups[g.id := Flat(Shell(g), parent, order)]);
      var withEntries :- FlattenEntries(g.entries, 0, g.id, side, withGroup);
      FlattenChildren(g.children, 0, g.id, side, withEntries)
  }

  function FlattenChildren(children: seq<Group>, order: nat, parent: Uuid, side: Version, flat: FlatVault)
    : Result<FlatVault, PatchError>
    decreases children, 0
  {
    if children == [] then Success(flat)
    else
      var withFirst :- FlattenGroup(children[0], Some(parent), order, side, flat);
      FlattenChildren(children[1..], order + 1, parent, side, withFirst)
  }

  function FlattenVault(vault: Vault, side: Version): Result<FlatVault, PatchError> {
    FlattenGroup(vault.root, None, 0, side, FlatVault(vault.root.id, map[], map[]))
  }

  // ---- The identifiers of a tree ----

  function AllGroupIds(g: Group): set<Uuid>
    decreases g, 1
  {
    {g.id} + AllGroupIdsIn(g.children)
  }

  function AllGroupIdsIn(groups: seq<Group>): set<Uuid>
    decreases groups, 0
  {
    if groups == [] then {} else AllGroupIds(groups[0]) + AllGroupIdsIn(groups[1..])
  }

  function EntryIdsOf(entries: seq<Entry>): set<Uuid> {
    if entries == [] then {} else {entries[0].id} + EntryIdsOf(entries[1..])
  }

  function AllEntryIds(g: Group): set<Uuid>
    decreases g, 1
  {
    EntryIdsOf(g.entries) + AllEntryIdsIn(g.children)
  }

  function AllEntryIdsIn(groups: seq<Group>): set<Uuid>
    decreases groups, 0
  {
    if groups == [] then {} else AllEntryIds(groups[0]) + AllEntryIdsIn(groups[1..])
  }

  // ---- No identifier is used twice ----

  predicate DistinctEntries(entries: seq<Entry>) {
    entries == [] || (entries[0].id !in EntryIdsOf(entries[1..]) && DistinctEntries(entries[1..]))
  }

  predicate DistinctGroup(g: Group)
    decreases g, 1
  {
    && g.id !in AllGroupIdsIn(g.children)
    && DistinctEntries(g.entries)
    && EntryIdsOf(g.entries) !! AllEntryIdsIn(g.children)
    && DistinctGroups(g.children)
  }

  predicate DistinctGroups(groups: seq<Group>)
    decreases groups, 0
  {
    groups == []
    || (&& DistinctGroup(groups[0])
        && DistinctGroups(groups[1..])
        && AllGroupIds(groups[0]) !! AllGroupIdsIn(groups[1..])
        && AllEntryIds(groups[0]) !! AllEntryIdsIn(groups[1..]))
  }

  // ---- What a flat vault records about a tree ----

  ghost predicate HoldsEntries(flat: FlatVault, entries: seq<Entry>, order: nat, parent: Uuid) {
    entries == []
    || (&& entries[0].id in flat.entries
        && flat.entries[entries[0].id] == Flat(entries[0], Some(parent), order)
        && HoldsEntries(flat, entries[1..], order + 1, parent))
  }

  ghost predicate HoldsGroup(flat: FlatVault, g: Group, parent: Option<Uuid>, order: nat)
    decreases g, 1
  {
    && g.id in flat.groups
    && flat.groups[g.id] == Flat(Shell(g), parent, order)
    && HoldsEntries(flat, g.entries, 0, g.id)
    && HoldsChildren(flat, g.children, 0, g.id)
  }

  ghost predicate HoldsChildren(flat: FlatVault, children: seq<Group>, order: nat, parent: Uuid)
    decreases children, 0
  {
    children == []
    || (&& HoldsGroup(flat, children[0], Some(parent), order)
        && HoldsChildren(flat, children[1..], order + 1, parent))
  }

  /** `larger` keeps every record of `smaller`. */
  ghost predicate Extends(larger: FlatVault, smaller: FlatVault) {
    && larger.rootId == smaller.rootId
    && (forall id :: id in smaller.groups ==> id in larger.groups && larger.groups[id] == smaller.groups[id])
    && (forall id :: id in smaller.entries ==> id in larger.entries && larger.entries[id] == smaller.entries[id])
  }

  lemma {:induction false} HoldsEntriesMonotone(
    smaller: FlatVault, larger: FlatVault, entries: seq<Entry>, order: nat, parent: Uuid)
    requires Extends(larger, smaller) && HoldsEntries(smaller, entries, order, parent)
    ensures HoldsEntries(larger, entries, order, parent)
  {
    if entries != [] {
      HoldsEntriesMonotone(smaller, larger, entries[1..], order + 1, parent);
    }
  }

  lemma {:induction false} HoldsGroupMonotone(
    smaller: FlatVault, larger: FlatVault, g: Group, parent: Option<Uuid>, order: nat)
    requires Extends(larger, smaller) && HoldsGroup(smaller, g, parent, order)
    ensures HoldsGroup(larger, g, parent, order)
    decreases g, 1
  {
    HoldsEntriesMonotone(smaller, larger, g.entries, 0, g.id);
    HoldsChildrenMonotone(smaller, larger, g.children, 0, g.id);
  }

  lemma {:induction false} HoldsChildrenMonotone(
    smaller: FlatVault, larger: FlatVault, children: seq<Group>, order: nat, parent: Uuid)
    requires Extends(larger, smaller) && HoldsChildren(smaller, children, order, parent)
    ensures HoldsChildren(larger, children, order, parent)
    decreases children, 0
  {
    if children != [] {
      HoldsGroupMonotone(smaller, larger, children[0], Some(parent), order);
      HoldsChildrenMonotone(smaller, larger, children[1..], order + 1, parent);
    }
  }

  // ---- Flattening is exact ----

  lemma {:induction false} FlattenEntriesIsExact(
    entries: seq<Entry>, order: nat, parent: Uuid, side: Version, flat: FlatVault)
    ensures var r := FlattenEntries(entries, order, parent, side, flat);
      && (r.Success? <==> DistinctEntries(entries) && EntryIdsOf(entries) !! flat.entries.Keys)
      && (r.Success? ==>
            && Extends(r.value, flat)
            && r.value.groups == flat.groups
            && r.value.entries.Keys == flat.entries.Keys + EntryIdsOf(entries)
            && HoldsEntries(r.value, entries, order, parent))
  {
    if entries != [] && entries[0].id !in flat.entries {
      var next := flat.(entries := flat.entries[entries[0].id := Flat(entries[0], Some(parent), order)]);
      FlattenEntriesIsExact(entries[1..], order + 1, parent, side, next);
    }
  }

  /** `after` is `before` with exactly the given identifiers added. */
  ghost predicate Grew(after: FlatVault, before: FlatVault, groups: set<Uuid>, entries: set<Uuid>) {
    && Extends(after, before)
    && after.groups.Keys == before.groups.Keys + groups
    && after.entries.Keys == before.entries.Keys + entries
  }

  lemma GrewTwice(a: FlatVault, b: FlatVault, c: FlatVault,
                  g1: set<Uuid>, e1: set<Uuid>, g2: set<Uuid>, e2: set<Uuid>)
    requires Grew(b, a, g1, e1) && Grew(c, b, g2, e2)
    ensures Grew(c, a, g1 + g2, e1 + e2)
  {
  }

  lemma {:induction false} FlattenGroupHolds(g: Group, parent: Option<Uuid>, order: nat, side: Version, flat: FlatVault)
    requires FlattenGroup(g, parent, order, side, flat).Success?
    ensures var r := FlattenGroup(g, parent, order, side, flat).value;
      Grew(r, flat, AllGroupIds(g), AllEntryIds(g)) && HoldsGroup(r, g, parent, order)
    decreases g, 1
  {
    var withGroup := flat.(groups := flat.groups[g.id := Flat(Shell(g), parent, order)]);
    FlattenEntriesIsExact(g.entries, 0, g.id, side, withGroup);
    var e := FlattenEntries(g.entries, 0, g.id, side, withGroup).value;
    FlattenChildrenHold(g.children, 0, g.id, side, e);
    var r := FlattenChildren(g.children, 0, g.id, side, e).value;
    HoldsEntriesMonotone(e, r, g.entries, 0, g.id);
    GrewTwice(flat, e, r, {g.id}, EntryIdsOf(g.entries), AllGroupIdsIn(g.children), AllEntryIdsIn(g.children));
  }

  lemma {:induction false} FlattenChildrenHold(
    children: seq<Group>, order: nat, parent: Uuid, side: Version, flat: FlatVault)
    requires FlattenChildren(children, order, parent, side, flat).Success?
    ensures var r := FlattenChildren(children, order, parent, side, flat).value;
      Grew(r, flat, AllGroupIdsIn(children), AllEntryIdsIn(children)) && HoldsChildren(r, children, order, parent)
    decreases children, 0
  {
    if children != [] {
      FlattenGroupHolds(children[0], Some(parent), order, side, flat);
      var first := FlattenGroup(children[0], Some(parent), order, side, flat).value;
      FlattenChildrenHold(children[1..], order + 1, parent, side, first);
      var r := FlattenChildren(children[1..], order + 1, parent, side, first).value;
      HoldsGroupMonotone(first, r, children[0], Some(parent), order);
      GrewTwice(flat, first, r, AllGroupIds(children[0]), AllEntryIds(children[0]),
                AllGroupIdsIn(children[1..]), AllEntryIdsIn(children[1..]));
    }
  }

  lemma {:induction false} FlattenGroupSucceeds(
    g: Group, parent: Option<Uuid>, order: nat, side: Version, flat: FlatVault)
    ensures FlattenGroup(g, parent, order, side, flat).Success?
      <==> DistinctGroup(g) && AllGroupIds(g) !! flat.groups.Keys && AllEntryIds(g) !! flat.entries.Keys
    decreases g, 1
  {
    if g.id !in flat.groups {
      var withGroup := flat.(groups := flat.groups[g.id := Flat(Shell(g), parent, order)]);
      FlattenEntriesIsExact(g.entries, 0, g.id, side, withGroup);
      var e := FlattenEntries(g.entries, 0, g.id, side, withGroup);
      if e.Success? {
        FlattenChildrenSucceed(g.children, 0, g.id, side, e.value);
      }
    }
  }

  lemma {:induction false} FlattenChildrenSucceed(
    children: seq<Group>, order: nat, parent: Uuid, side: Version, flat: FlatVault)
    ensures FlattenChildren(children, order, parent, side, flat).Success?
      <==> DistinctGroups(children)
           && AllGroupIdsIn(children) !! flat.groups.Keys && AllEntryIdsIn(children) !! flat.entries.Keys
    decreases children, 0
  {
    if children != [] {
      FlattenGroupSucceeds(children[0], Some(parent), order, side, flat);
      var first := FlattenGroup(children[0], Some(parent), order, side, flat);
      if first.Success? {
        FlattenGroupHolds(children[0], Some(parent), order, side, flat);
        FlattenChildrenSucceed(children[1..], order + 1, parent, side, first.value);
      }
    }
  }

  /** Flattening fails only on a duplicate identifier, and otherwise records exactly the tree. */
  lemma FlattenIsExact(vault: Vault, side: Version)
    ensures var r := FlattenVault(vault, side);
      && (r.Success? <==> DistinctGroup(vault.root))
      && (r.Success? ==>
            && r.value.rootId == vault.root.id
            && r.value.groups.Keys == AllGroupIds(vault.root)
            && r.value.entries.Keys == AllEntryIds(vault.root)
            && HoldsGroup(r.value, vault.root, None, 0))
  {
    var empty := FlatVault(vault.root.id, map[], map[]);
    FlattenGroupSucceeds(vault.root, None, 0, side, empty);
    if FlattenGroup(vault.root, None, 0, side, empty).Success? {
      FlattenGroupHolds(vault.root, None, 0, side, empty);
    }
  }
}
