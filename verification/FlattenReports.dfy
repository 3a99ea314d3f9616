/** Which identifier flattening reports as repeated: the first one that the walk over the tree meets twice. */
module FlattenReports {
  import opened Wrappers
  import opened IdOrder
  import opened Model
  import opened Forest
  import opened Tree

  /** What the walk meets: groups and entries have identifiers of their own. */
  datatype Met = GroupMet(id: Uuid) | EntryMet(id: Uuid)

  ghost function EntriesMet(entries: seq<Entry>): seq<Met> {
    if entries == [] then [] else [EntryMet(entries[0].id)] + EntriesMet(entries[1..])
  }

  /** A group, then its entries, then its child groups one after the other. */
  ghost function WalkOf(g: Group): seq<Met>
    decreases g, 1
  {
    [GroupMet(g.id)] + (EntriesMet(g.entries) + WalksOf(g.children))
  }

  ghost function WalksOf(groups: seq<Group>): seq<Met>
    decreases groups, 0
  {
    if groups == [] then [] else WalkOf(groups[0]) + WalksOf(groups[1..])
  }

  ghost predicate Holds(flat: FlatVault, met: Met) {
    match met
    case GroupMet(id) => id in flat.groups
    case EntryMet(id) => id in flat.entries
  }

  ghost function RepeatError(met: Met, side: Version): PatchError {
    match met
    case GroupMet(id) => DuplicateGroup(side, id)
    case EntryMet(id) => DuplicateEntry(side, id)
  }

  /** Nothing met before `i` was there, or met, before; what is met at `i` was. */
  ghost predicate MeetsAgain(flat: FlatVault, walk: seq<Met>, i: int) {
    && 0 <= i < |walk| && (Holds(flat, walk[i]) || walk[i] in walk[..i])
    && forall j :: 0 <= j < i ==> !Holds(flat, walk[j]) && walk[j] !in walk[..j]
  }

  ghost predicate MeetsNothingAgain(flat: FlatVault, walk: seq<Met>) {
    forall j :: 0 <= j < |walk| ==> !Holds(flat, walk[j]) && walk[j] !in walk[..j]
  }

  /** The outcome of walking: stopped at the first repetition, or everything is recorded. */
  ghost predicate Walked(flat: FlatVault, walk: seq<Met>, side: Version, r: Result<FlatVault, PatchError>) {
    match r
    case Success(after) =>
      && MeetsNothingAgain(flat, walk)
      && forall met :: Holds(after, met) <==> Holds(flat, met) || met in walk
    case Failure(e) => exists i :: MeetsAgain(flat, walk, i) && e == RepeatError(walk[i], side)
  }

  /** One part of a walk after another. */
  lemma WalkedOn(flat: FlatVault, a: seq<Met>, mid: FlatVault, b: seq<Met>, side: Version, r: Result<FlatVault, PatchError>)
    requires Walked(flat, a, side, Success(mid)) && Walked(mid, b, side, r)
    ensures Walked(flat, a + b, side, r)
  {
    var walk := a + b;
    hide Holds;
    forall j | |a| <= j < |walk| ensures walk[j] == b[j - |a|] {
    }
    forall j | 0 <= j < |a| ensures walk[j] == a[j] && walk[..j] == a[..j] {
    }
    forall j, met | |a| <= j <= |walk| ensures met in walk[..j] <==> met in a || met in b[..j - |a|] {
      assert walk[..j] == a + b[..j - |a|];
    }
    match r
    case Success(after) =>
      WalkClear(flat, a, mid, b, walk);
    case Failure(e) =>
      var i :| MeetsAgain(mid, b, i) && e == RepeatError(b[i], side);
      WalkStops(flat, a, mid, b, walk, i);
  }

  lemma WalkClear(flat: FlatVault, a: seq<Met>, mid: FlatVault, b: seq<Met>, walk: seq<Met>)
    requires walk == a + b && MeetsNothingAgain(flat, a) && MeetsNothingAgain(mid, b)
    requires forall met :: Holds(mid, met) <==> Holds(flat, met) || met in a
    requires forall j, met :: |a| <= j <= |walk| ==> (met in walk[..j] <==> met in a || met in b[..j - |a|])
    ensures MeetsNothingAgain(flat, walk)
  {
    hide Holds;
    forall j | 0 <= j < |walk| ensures !Holds(flat, walk[j]) && walk[j] !in walk[..j] {
      if j < |a| {
        assert walk[j] == a[j] && walk[..j] == a[..j];
      } else {
        assert walk[j] == b[j - |a|];
      }
    }
  }

  lemma WalkStops(flat: FlatVault, a: seq<Met>, mid: FlatVault, b: seq<Met>, walk: seq<Met>, i: int)
    requires walk == a + b && MeetsNothingAgain(flat, a) && MeetsAgain(mid, b, i)
    requires forall met :: Holds(mid, met) <==> Holds(flat, met) || met in a
    requires forall j, met :: |a| <= j <= |walk| ==> (met in walk[..j] <==> met in a || met in b[..j - |a|])
    ensures MeetsAgain(flat, walk, |a| + i) && walk[|a| + i] == b[i]
  {
    hide Holds;
    assert walk[|a| + i] == b[i];
    forall j | 0 <= j < |a| + i ensures !Holds(flat, walk[j]) && walk[j] !in walk[..j] {
      if j < |a| {
        assert walk[j] == a[j] && walk[..j] == a[..j];
      } else {
        assert walk[j] == b[j - |a|];
      }
    }
  }

  lemma WalkStopsHere(flat: FlatVault, a: seq<Met>, b: seq<Met>, side: Version, e: PatchError)
    requires Walked(flat, a, side, Failure(e))
    ensures Walked(flat, a + b, side, Failure(e))
  {
    hide Holds;
    var i :| MeetsAgain(flat, a, i) && e == RepeatError(a[i], side);
    var walk := a + b;
    assert walk[i] == a[i] && walk[..i] == a[..i];
    assert forall j :: 0 <= j < i ==> walk[j] == a[j] && walk[..j] == a[..j];
    assert MeetsAgain(flat, walk, i);
  }

  lemma OneMet(flat: FlatVault, met: Met, side: Version, after: FlatVault)
    requires !Holds(flat, met) ==> forall m :: Holds(after, m) <==> Holds(flat, m) || m == met
    ensures Walked(flat, [met], side, if Holds(flat, met) then Failure(RepeatError(met, side)) else Success(after))
  {
    hide Holds;
    if Holds(flat, met) {
      assert MeetsAgain(flat, [met], 0);
    }
  }

  lemma {:induction false} EntriesWalked(entries: seq<Entry>, order: nat, parent: Uuid, side: Version, flat: FlatVault)
    ensures Walked(flat, EntriesMet(entries), side, FlattenEntries(entries, order, parent, side, flat))
  {
    if entries != [] {
      var met := EntryMet(entries[0].id);
      var next := flat.(entries := flat.entries[entries[0].id := Flat(entries[0], Some(parent), order)]);
      OneMet(flat, met, side, next);
      EntriesWalked(entries[1..], order + 1, parent, side, next);
      hide Walked, EntriesMet;
      if Holds(flat, met) {
        WalkStopsHere(flat, [met], EntriesMet(entries[1..]), side, RepeatError(met, side));
      } else {
        WalkedOn(flat, [met], next, EntriesMet(entries[1..]), side, FlattenEntries(entries[1..], order + 1, parent, side, next));
      }
      ConsMet(entries);
    }
  }

  lemma ConsMet(entries: seq<Entry>)
    requires entries != []
    ensures EntriesMet(entries) == [EntryMet(entries[0].id)] + EntriesMet(entries[1..])
  {
  }

  lemma {:induction false} GroupWalked(g: Group, parent: Option<Uuid>, order: nat, side: Version, flat: FlatVault)
    ensures Walked(flat, WalkOf(g), side, FlattenGroup(g, parent, order, side, flat))
    decreases g, 1
  {
    var met, entries, children := GroupMet(g.id), EntriesMet(g.entries), WalksOf(g.children);
    var withGroup := flat.(groups := flat.groups[g.id := Flat(Shell(g), parent, order)]);
    OneMet(flat, met, side, withGroup);
    assert Holds(flat, met) <==> g.id in flat.groups;
    hide Walked, WalksOf, EntriesMet;
    if g.id in flat.groups {
      WalkStopsHere(flat, [met], entries + children, side, DuplicateGroup(side, g.id));
    } else {
      var listed := FlattenEntries(g.entries, 0, g.id, side, withGroup);
      EntriesWalked(g.entries, 0, g.id, side, withGroup);
      if listed.Failure? {
        WalkStopsHere(withGroup, entries, children, side, listed.error);
        WalkedOn(flat, [met], withGroup, entries + children, side, Failure(listed.error));
      } else {
        GroupsWalked(g.children, 0, g.id, side, listed.value);
        var r := FlattenChildren(g.children, 0, g.id, side, listed.value);
        WalkedOn(withGroup, entries, listed.value, children, side, r);
        WalkedOn(flat, [met], withGroup, entries + children, side, r);
      }
    }
  }

  lemma {:induction false} GroupsWalked(groups: seq<Group>, order: nat, parent: Uuid, side: Version, flat: FlatVault)
    ensures Walked(flat, WalksOf(groups), side, FlattenChildren(groups, order, parent, side, flat))
    decreases groups, 0
  {
    if groups != [] {
      GroupWalked(groups[0], Some(parent), order, side, flat);
      var first := FlattenGroup(groups[0], Some(parent), order, side, flat);
      hide Walked, WalkOf;
      if first.Failure? {
        WalkStopsHere(flat, WalkOf(groups[0]), WalksOf(groups[1..]), side, first.error);
      } else {
        GroupsWalked(groups[1..], order + 1, parent, side, first.value);
        WalkedOn(flat, WalkOf(groups[0]), first.value, WalksOf(groups[1..]), side,
                 FlattenChildren(groups[1..], order + 1, parent, side, first.value));
      }
    }
  }

  /** The first identifier the walk over the vault's tree meets for the second time. */
  ghost predicate RepeatReport(vault: Vault, side: Version, e: PatchError) {
    exists i :: 0 <= i < |WalkOf(vault.root)| && WalkOf(vault.root)[i] in WalkOf(vault.root)[..i]
      && (forall j :: 0 <= j < i ==> WalkOf(vault.root)[j] !in WalkOf(vault.root)[..j])
      && e == RepeatError(WalkOf(vault.root)[i], side)
  }

  /** Flattening fails exactly when the walk meets something twice, and reports the first such thing. */
  lemma FlattenReported(vault: Vault, side: Version)
    ensures var r := FlattenVault(vault, side);
      if r.Failure? then RepeatReport(vault, side, r.error)
      else forall j :: 0 <= j < |WalkOf(vault.root)| ==> WalkOf(vault.root)[j] !in WalkOf(vault.root)[..j]
  {
    var empty := FlatVault(vault.root.id, map[], map[]);
    GroupWalked(vault.root, None, 0, side, empty);
    hide WalkOf, FlattenGroup;
  }
}
