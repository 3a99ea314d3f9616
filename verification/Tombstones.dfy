/** What becomes of tombstones, in terms of the three lists alone. */
module Tombstones {
  import opened Wrappers
  import opened IdOrder
  import opened Model
  import opened FieldMerge
  import opened EntryMerge
  import opened MetaMerge

  /** The tombstone a list holds for an identifier. */
  function TombstoneOf(list: seq<DeletedObject>, id: Uuid): Option<DeletedObject> {
    if list == [] then None
    else if list[|list| - 1].id == id then Some(list[|list| - 1])
    else TombstoneOf(list[..|list| - 1], id)
  }

  /** A missing tombstone is older than any other. */
  function BuriedAt(d: Option<DeletedObject>): int {
    if d.Some? then d.value.deletedAt else -0x8000_0000_0000_0000
  }

  /** In ascending order of identifiers, each at most once. */
  ghost predicate AscendingTombstones(list: seq<DeletedObject>) {
    forall i, j :: 0 <= i < j < |list| ==> list[i].id < list[j].id
  }

  /**
    A tombstone that only one side added, changed or dropped is taken from there;
    a contested one from the side that buried later, remote on a tie.
   */
  ghost predicate TombstoneKept(base: seq<DeletedObject>, local: seq<DeletedObject>, remote: seq<DeletedObject>,
                                merged: seq<DeletedObject>, id: Uuid) {
    EditKept(TombstoneOf(base, id), TombstoneOf(local, id), TombstoneOf(remote, id), TombstoneOf(merged, id),
             BuriedAt(TombstoneOf(local, id)) > BuriedAt(TombstoneOf(remote, id)))
  }

  lemma {:induction false} TombstoneFound(list: seq<DeletedObject>, id: Uuid)
    ensures Get(DeletedById(list), id) == TombstoneOf(list, id)
    ensures TombstoneOf(list, id).Some? ==> TombstoneOf(list, id).value in list && TombstoneOf(list, id).value.id == id
  {
    if list != [] {
      TombstoneFound(list[..|list| - 1], id);
    }
  }

  lemma {:induction false} TombstoneConcat(a: seq<DeletedObject>, b: seq<DeletedObject>, id: Uuid)
    ensures TombstoneOf(a + b, id) == if TombstoneOf(b, id).Some? then TombstoneOf(b, id) else TombstoneOf(a, id)
  {
    if b == [] {
      assert a + b == a;
    } else {
      assert (a + b)[..|a + b| - 1] == a + b[..|b| - 1];
      TombstoneConcat(a, b[..|b| - 1], id);
    }
  }

  /** A tombstone put before the others, if there is one. */
  lemma PutFirst(x: Uuid, head: seq<DeletedObject>, rest: seq<DeletedObject>)
    requires head == [] || (|head| == 1 && head[0].id == x)
    requires AscendingTombstones(rest) && forall d :: d in rest ==> x < d.id
    ensures AscendingTombstones(head + rest)
    ensures forall id ::
              TombstoneOf(head + rest, id)
              == if id != x then TombstoneOf(rest, id) else if head == [] then None else Some(head[0])
  {
    assert forall k :: 0 <= k < |rest| ==> rest[k] in rest;
    forall id ensures TombstoneOf(head + rest, id) ==
      if id != x then TombstoneOf(rest, id) else if head == [] then None else Some(head[0])
    {
      TombstoneConcat(head, rest, id);
      TombstoneFound(rest, id);
      assert TombstoneOf([], id) == None;
      if head != [] {
        assert head[..0] == [];
      }
    }
  }

  /** Over ascending identifiers the selected tombstones are ascending, one for each identifier that has one. */
  lemma {:induction false} SelectedTombstones(b: map<Uuid, DeletedObject>, l: map<Uuid, DeletedObject>,
                                              r: map<Uuid, DeletedObject>, ids: seq<Uuid>)
    requires forall i, j :: 0 <= i < j < |ids| ==> ids[i] < ids[j]
    requires forall id :: SelectedDeletion(b, l, r, id).Some? ==> SelectedDeletion(b, l, r, id).value.id == id
    ensures var list := DeletionsOf(b, l, r, ids);
      && AscendingTombstones(list) && (forall d :: d in list ==> d.id in ids)
      && forall id :: TombstoneOf(list, id) == if id in ids then SelectedDeletion(b, l, r, id) else None
  {
    hide SelectedDeletion;
    if ids != [] {
      SelectedTombstones(b, l, r, ids[1..]);
      var head: seq<DeletedObject> := if SelectedDeletion(b, l, r, ids[0]).Some? then [SelectedDeletion(b, l, r, ids[0]).value] else [];
      var rest := DeletionsOf(b, l, r, ids[1..]);
      assert ids == [ids[0]] + ids[1..];
      assert forall k :: 0 <= k < |ids[1..]| ==> ids[1..][k] == ids[k + 1];
      PutFirst(ids[0], head, rest);
      forall id ensures TombstoneOf(head + rest, id) == if id in ids then SelectedDeletion(b, l, r, id) else None {
        assert id in ids <==> id == ids[0] || id in ids[1..];
      }
    }
  }

  /** Merging tombstones keeps every one-sided change, and lists them in order. */
  lemma MergedTombstones(base: seq<DeletedObject>, local: seq<DeletedObject>, remote: seq<DeletedObject>)
    ensures var merged := MergedDeletions(base, local, remote);
      AscendingTombstones(merged) && forall id :: TombstoneKept(base, local, remote, merged, id)
  {
    var b, l, r := DeletedById(base), DeletedById(local), DeletedById(remote);
    var ids := Ascending(UnionKeys(b, l, r));
    forall id
      ensures Get(b, id) == TombstoneOf(base, id) && Get(l, id) == TombstoneOf(local, id)
      ensures Get(r, id) == TombstoneOf(remote, id)
      ensures SelectedDeletion(b, l, r, id).Some? ==> SelectedDeletion(b, l, r, id).value.id == id
    {
      TombstoneFound(base, id);
      TombstoneFound(local, id);
      TombstoneFound(remote, id);
    }
    SelectedTombstones(b, l, r, ids);
    forall id ensures TombstoneKept(base, local, remote, MergedDeletions(base, local, remote), id) {
      assert id in ids <==> id in Elements(ids);
    }
  }

  /** Dropping the tombstones of living objects leaves all others as they are. */
  lemma {:induction false} BuriedTombstones(list: seq<DeletedObject>, live: set<Uuid>)
    requires AscendingTombstones(list)
    ensures AscendingTombstones(Buried(list, live)) && (forall d :: d in Buried(list, live) ==> d in list)
    ensures forall id :: TombstoneOf(Buried(list, live), id) == if id in live then None else TombstoneOf(list, id)
  {
    if list != [] {
      var rest, kept := list[1..], Buried(list[1..], live);
      BuriedTombstones(rest, live);
      var head: seq<DeletedObject> := if list[0].id in live then [] else [list[0]];
      assert list == [list[0]] + rest;
      assert forall k :: 0 <= k < |rest| ==> rest[k] == list[k + 1];
      PutFirst(list[0].id, head, kept);
      PutFirst(list[0].id, [list[0]], rest);
    }
  }
}
