/** Rebasing one sibling list: local's moves and additions spliced into remote's order. */
module SiblingOrder {
  import opened Wrappers
  import opened IdOrder
  import opened Model

  function Only(q: seq<Uuid>, keep: set<Uuid>): seq<Uuid> {
    if q == [] then [] else (if q[0] in keep then [q[0]] else []) + Only(q[1..], keep)
  }

  function Without(q: seq<Uuid>, drop: set<Uuid>): seq<Uuid> {
    if q == [] then [] else (if q[0] in drop then [] else [q[0]]) + Without(q[1..], drop)
  }

  /** The first position of `id`, or the length when it is absent. */
  function Position(q: seq<Uuid>, id: Uuid): (k: nat)
    ensures k <= |q| && (k < |q| <==> id in q) && (k < |q| ==> q[k] == id) && id !in q[..k]
  {
    if q == [] then 0 else if q[0] == id then 0
    else
      var k := Position(q[1..], id);
      assert q[..k + 1] == [q[0]] + q[1..][..k];
      k + 1
  }

  function Splice(local: seq<Uuid>, prefer: set<Uuid>, order: seq<Uuid>, pending: seq<Uuid>): seq<Uuid> {
    if local == [] then order + pending
    else if local[0] in prefer then Splice(local[1..], prefer, order, pending + [local[0]])
    else if local[0] in order then
      var anchor := Position(order, local[0]);
      Splice(local[1..], prefer, order[..anchor] + pending + order[anchor..], [])
    else Splice(local[1..], prefer, order, pending)
  }

  /** Some adjacent local pair with a preferred member is not kept in order. */
  predicate BreaksLocalPair(order: seq<Uuid>, local: seq<Uuid>, prefer: set<Uuid>) {
    exists k | 0 <= k < |local| - 1 ::
      (local[k] in prefer || local[k + 1] in prefer) && Position(order, local[k]) >= Position(order, local[k + 1])
  }

  function Rebased(parent: Uuid, kind: ObjectKind, finalIds: set<Uuid>,
                   local: seq<Uuid>, remote: seq<Uuid>, prefer: set<Uuid>): Result<seq<Uuid>, PatchError>
  {
    var order := Splice(local, prefer, Without(remote, prefer), []);
    if |order| != |finalIds| || Elements(order) != finalIds || BreaksLocalPair(order, local, prefer)
    then Failure(SiblingOrderChange(parent, kind))
    else Success(order)
  }

  // ---- List facts ----

  lemma {:induction false} OnlyConcat(a: seq<Uuid>, b: seq<Uuid>, keep: set<Uuid>)
    ensures Only(a + b, keep) == Only(a, keep) + Only(b, keep)
  {
    if a == [] {
      assert a + b == b;
    } else {
      assert (a + b)[1..] == a[1..] + b;
      OnlyConcat(a[1..], b, keep);
      Regroup(if a[0] in keep then [a[0]] else [], Only(a[1..], keep), Only(b, keep));
    }
  }

  lemma {:induction false} WithoutConcat(a: seq<Uuid>, b: seq<Uuid>, drop: set<Uuid>)
    ensures Without(a + b, drop) == Without(a, drop) + Without(b, drop)
  {
    if a == [] {
      assert a + b == b;
    } else {
      assert (a + b)[1..] == a[1..] + b;
      WithoutConcat(a[1..], b, drop);
    }
  }

  lemma {:induction false} OnlyAll(q: seq<Uuid>, keep: set<Uuid>)
    requires forall x :: x in q ==> x in keep
    ensures Only(q, keep) == q
  {
    if q != [] {
      OnlyAll(q[1..], keep);
    }
  }

  lemma {:induction false} WithoutNone(q: seq<Uuid>, drop: set<Uuid>)
    requires forall x :: x in q ==> x !in drop
    ensures Without(q, drop) == q
  {
    if q != [] {
      WithoutNone(q[1..], drop);
    }
  }

  lemma {:induction false} WithoutAll(q: seq<Uuid>, drop: set<Uuid>)
    requires forall x :: x in q ==> x in drop
    ensures Without(q, drop) == []
  {
    if q != [] {
      WithoutAll(q[1..], drop);
    }
  }

  lemma {:induction false} InWithout(q: seq<Uuid>, drop: set<Uuid>, x: Uuid)
    ensures x in Without(q, drop) <==> x in q && x !in drop
  {
    if q != [] {
      InWithout(q[1..], drop, x);
      assert q == [q[0]] + q[1..];
    }
  }

  lemma {:induction false} InOnly(q: seq<Uuid>, keep: set<Uuid>, x: Uuid)
    ensures x in Only(q, keep) <==> x in q && x in keep
  {
    if q != [] {
      InOnly(q[1..], keep, x);
      assert q == [q[0]] + q[1..];
    }
  }

  lemma DistinctTail(q: seq<Uuid>)
    requires q != []
    ensures Distinct(q) <==> q[0] !in q[1..] && Distinct(q[1..])
  {
    if Distinct(q) {
      forall i, j | 0 <= i < j < |q[1..]| ensures q[1..][i] != q[1..][j] {
        assert q[i + 1] != q[j + 1];
      }
      forall i | 0 <= i < |q[1..]| ensures q[1..][i] != q[0] {
        assert q[0] != q[i + 1];
      }
    } else {
      var i, j :| 0 <= i < j < |q| && q[i] == q[j];
      assert q[1..][j - 1] == q[j];
      assert i > 0 ==> q[1..][i - 1] == q[i];
    }
  }

  lemma {:induction false} DistinctWithout(q: seq<Uuid>, drop: set<Uuid>)
    requires Distinct(q)
    ensures Distinct(Without(q, drop))
  {
    if q != [] {
      DistinctTail(q);
      DistinctWithout(q[1..], drop);
      InWithout(q[1..], drop, q[0]);
      if q[0] !in drop {
        assert Without(q, drop)[1..] == Without(q[1..], drop);
        DistinctTail(Without(q, drop));
      }
    }
  }

  lemma {:induction false} DistinctOnly(q: seq<Uuid>, keep: set<Uuid>)
    requires Distinct(q)
    ensures Distinct(Only(q, keep))
  {
    if q != [] {
      DistinctTail(q);
      DistinctOnly(q[1..], keep);
      InOnly(q[1..], keep, q[0]);
      if q[0] in keep {
        assert Only(q, keep)[1..] == Only(q[1..], keep);
        DistinctTail(Only(q, keep));
      }
    }
  }

  /** A list whose two complementary halves repeat nothing repeats nothing. */
  lemma {:induction false} DistinctHalves(q: seq<Uuid>, part: set<Uuid>)
    requires Distinct(Only(q, part)) && Distinct(Without(q, part))
    ensures Distinct(q)
  {
    if q != [] {
      InOnly(q[1..], part, q[0]);
      InWithout(q[1..], part, q[0]);
      if q[0] in part {
        assert Only(q, part)[1..] == Only(q[1..], part);
        assert Without(q, part) == Without(q[1..], part);
        DistinctTail(Only(q, part));
      } else {
        assert Without(q, part)[1..] == Without(q[1..], part);
        assert Only(q, part) == Only(q[1..], part);
        DistinctTail(Without(q, part));
      }
      DistinctHalves(q[1..], part);
      DistinctTail(q);
    }
  }

  lemma {:induction false} OnlyOnly(q: seq<Uuid>, outer: set<Uuid>, inner: set<Uuid>)
    requires forall x :: x in q && x in inner ==> x in outer
    ensures Only(Only(q, outer), inner) == Only(q, inner)
  {
    if q != [] {
      OnlyOnly(q[1..], outer, inner);
      var head := if q[0] in outer then [q[0]] else [];
      OnlyConcat(head, Only(q[1..], outer), inner);
      assert Only(head, inner) == if q[0] in inner then [q[0]] else [];
    }
  }

  lemma {:induction false} ElementsSize(q: seq<Uuid>)
    ensures |Elements(q)| <= |q|
    ensures |Elements(q)| == |q| <==> Distinct(q)
  {
    if q != [] {
      ElementsSize(q[1..]);
      DistinctTail(q);
      assert Elements(q) == {q[0]} + Elements(q[1..]) by {
        assert q == [q[0]] + q[1..];
      }
      if q[0] in q[1..] {
        assert Elements(q) == Elements(q[1..]);
      } else {
        assert q[0] !in Elements(q[1..]);
      }
    }
  }

  /** The parts around one member of a list without repetitions. */
  lemma DistinctSplit(a: seq<Uuid>, x: Uuid, b: seq<Uuid>)
    requires Distinct(a + [x] + b)
    ensures Distinct(b) && x !in a && x !in b
    ensures forall y :: y in a ==> y !in b
  {
    var q := a + [x] + b;
    assert q[|a|] == x;
    forall i | 0 <= i < |a| ensures a[i] != x && a[i] !in b {
      assert q[i] == a[i];
      forall j | 0 <= j < |b| ensures b[j] != a[i] {
        assert q[|a| + 1 + j] == b[j];
      }
    }
    forall i | 0 <= i < |b| ensures b[i] != x {
      assert q[|a| + 1 + i] == b[i];
    }
    forall i, j | 0 <= i < j < |b| ensures b[i] != b[j] {
      assert q[|a| + 1 + i] == b[i] && q[|a| + 1 + j] == b[j];
    }
  }

  lemma PositionInTail(q: seq<Uuid>, x: Uuid)
    requires q != [] && x != q[0]
    ensures Position(q, x) == Position(q[1..], x) + 1
  {
  }

  /** Filtering keeps positions in order. */
  lemma {:induction false} OnlyKeepsOrder(q: seq<Uuid>, keep: set<Uuid>, i: nat, j: nat)
    requires Distinct(q) && i < j < |Only(q, keep)|
    ensures Position(q, Only(q, keep)[i]) < Position(q, Only(q, keep)[j])
  {
    DistinctTail(q);
    var tail, rest := q[1..], Only(q[1..], keep);
    var a, b := Only(q, keep)[i], Only(q, keep)[j];
    InOnly(tail, keep, q[0]);
    if q[0] in keep {
      assert Only(q, keep) == [q[0]] + rest;
      assert b == rest[j - 1] && b in rest;
      PositionInTail(q, b);
      if i > 0 {
        assert a == rest[i - 1] && a in rest;
        PositionInTail(q, a);
        OnlyKeepsOrder(tail, keep, i - 1, j - 1);
      }
    } else {
      assert Only(q, keep) == rest;
      assert a in rest && b in rest;
      PositionInTail(q, a);
      PositionInTail(q, b);
      OnlyKeepsOrder(tail, keep, i, j);
    }
  }

  // ---- What splicing keeps ----

  /** Splicing never disturbs remote's order of the non-preferred identifiers. */
  lemma {:induction false} SpliceKeepsRemote(local: seq<Uuid>, prefer: set<Uuid>, order: seq<Uuid>, pending: seq<Uuid>)
    requires forall x :: x in pending ==> x in prefer
    ensures Without(Splice(local, prefer, order, pending), prefer) == Without(order, prefer)
    decreases |local|
  {
    WithoutAll(pending, prefer);
    if local == [] {
      WithoutConcat(order, pending, prefer);
      assert Without(order, prefer) + [] == Without(order, prefer);
    } else if local[0] in prefer {
      SpliceKeepsRemote(local[1..], prefer, order, pending + [local[0]]);
    } else if local[0] in order {
      var anchor := Position(order, local[0]);
      var next := order[..anchor] + pending + order[anchor..];
      WithoutConcat(order[..anchor], order[anchor..], prefer);
      assert order == order[..anchor] + order[anchor..];
      WithoutConcat(order[..anchor] + pending, order[anchor..], prefer);
      WithoutConcat(order[..anchor], pending, prefer);
      SpliceKeepsRemote(local[1..], prefer, next, []);
    } else {
      SpliceKeepsRemote(local[1..], prefer, order, pending);
    }
  }

  /**
    On success the result is a permutation of the final identifiers that keeps
    remote's order of the non-preferred ones and local's order on every adjacent
    local pair with a preferred member.
   */
  lemma RebasedIsSound(parent: Uuid, kind: ObjectKind, finalIds: set<Uuid>,
                       local: seq<Uuid>, remote: seq<Uuid>, prefer: set<Uuid>)
    requires Rebased(parent, kind, finalIds, local, remote, prefer).Success?
    ensures var order := Rebased(parent, kind, finalIds, local, remote, prefer).value;
      && Distinct(order) && Elements(order) == finalIds
      && Without(order, prefer) == Without(remote, prefer)
      && (forall k :: 0 <= k < |local| - 1 && (local[k] in prefer || local[k + 1] in prefer) ==>
            Position(order, local[k]) < Position(order, local[k + 1]))
  {
    var order := Rebased(parent, kind, finalIds, local, remote, prefer).value;
    ElementsSize(order);
    SpliceKeepsRemote(local, prefer, Without(remote, prefer), []);
    forall x | x in Without(remote, prefer) ensures x !in prefer {
      InWithout(remote, prefer, x);
    }
    WithoutNone(Without(remote, prefer), prefer);
  }

  // ---- Agreeing sides ----

  /** What splicing does when every non-preferred local identifier is met further along in `rest`. */
  function Weave(local: seq<Uuid>, prefer: set<Uuid>, rest: seq<Uuid>, pending: seq<Uuid>): seq<Uuid> {
    if local == [] then rest + pending
    else if local[0] in prefer then Weave(local[1..], prefer, rest, pending + [local[0]])
    else
      var k := Position(rest, local[0]);
      if k == |rest| then rest + pending
      else rest[..k] + pending + [rest[k]] + Weave(local[1..], prefer, rest[k + 1..], [])
  }

  /** The sides agree: local's non-preferred identifiers appear in `rest`, in local's order. */
  ghost predicate Agree(local: seq<Uuid>, prefer: set<Uuid>, rest: seq<Uuid>, shared: set<Uuid>) {
    && Only(rest, shared) == Without(local, prefer)
    && (forall x :: x in local ==> x in shared)
    && (forall x :: x in rest ==> x !in prefer)
    && Distinct(rest)
  }

  /** When the sides agree, the next shared identifier in `rest` is local's next one. */
  lemma AgreeStep(local: seq<Uuid>, prefer: set<Uuid>, rest: seq<Uuid>, shared: set<Uuid>)
    returns (before: seq<Uuid>, after: seq<Uuid>)
    requires local != [] && local[0] !in prefer && Agree(local, prefer, rest, shared)
    ensures rest == before + [local[0]] + after
    ensures local[0] in rest && |before| == Position(rest, local[0]) && local[0] !in before
    ensures Only(before, shared) == []
    ensures Agree(local[1..], prefer, after, shared)
    ensures forall x :: x in after ==> x !in before && x != local[0]
  {
    assert Without(local, prefer) == [local[0]] + Without(local[1..], prefer);
    InOnly(rest, shared, local[0]);
    hide Without;
    var k := Position(rest, local[0]);
    before, after := rest[..k], rest[k + 1..];
    assert rest == before + [local[0]] + after;
    DistinctSplit(before, local[0], after);
    OnlyConcat(before + [local[0]], after, shared);
    OnlyConcat(before, [local[0]], shared);
    assert Only([local[0]], shared) == [local[0]];
    assert Only(rest, shared) == Only(before, shared) + ([local[0]] + Only(after, shared));
    if Only(before, shared) != [] {
      InOnly(before, shared, Only(before, shared)[0]);
    }
    assert Only(rest, shared)[1..] == Only(after, shared);
  }

  lemma WeaveAnchor(local: seq<Uuid>, prefer: set<Uuid>, rest: seq<Uuid>, pending: seq<Uuid>,
                    before: seq<Uuid>, after: seq<Uuid>)
    requires local != [] && local[0] !in prefer
    requires rest == before + [local[0]] + after && |before| == Position(rest, local[0])
    ensures Weave(local, prefer, rest, pending)
         == before + pending + [local[0]] + Weave(local[1..], prefer, after, [])
  {
    assert rest[..|before|] == before && rest[|before| + 1..] == after;
  }

  lemma WeavePending(local: seq<Uuid>, prefer: set<Uuid>, rest: seq<Uuid>, pending: seq<Uuid>)
    requires local != [] && local[0] in prefer
    ensures Weave(local, prefer, rest, pending) == Weave(local[1..], prefer, rest, pending + [local[0]])
    ensures pending + [local[0]] + local[1..] == pending + local
  {
  }

  lemma AgreePending(local: seq<Uuid>, prefer: set<Uuid>, rest: seq<Uuid>, shared: set<Uuid>)
    requires local != [] && local[0] in prefer && Agree(local, prefer, rest, shared)
    ensures Agree(local[1..], prefer, rest, shared)
  {
    assert Without(local, prefer) == Without(local[1..], prefer);
  }

  /** Inserting before the anchor, spelled out on the parts around it. */
  lemma SpliceAnchor(local: seq<Uuid>, prefer: set<Uuid>, placed: seq<Uuid>, before: seq<Uuid>, after: seq<Uuid>,
                     pending: seq<Uuid>)
    requires local != [] && local[0] !in prefer && local[0] !in placed && local[0] !in before
    ensures Splice(local, prefer, placed + (before + [local[0]] + after), pending)
         == Splice(local[1..], prefer, placed + before + pending + [local[0]] + after, [])
  {
    var order := placed + (before + [local[0]] + after);
    var front := placed + before;
    assert order == front + ([local[0]] + after);
    assert order[|front|] == local[0];
    PositionConcat(front, [local[0]] + after, local[0]);
    assert order[..|front|] == front && order[|front|..] == [local[0]] + after;
    assert front + pending + ([local[0]] + after) == placed + before + pending + [local[0]] + after;
  }

  lemma Regroup(a: seq<Uuid>, b: seq<Uuid>, c: seq<Uuid>)
    ensures a + (b + c) == a + b + c
  {
  }

  lemma StillApart(placed: seq<Uuid>, before: seq<Uuid>, pending: seq<Uuid>, anchor: Uuid, after: seq<Uuid>,
                   rest: seq<Uuid>, prefer: set<Uuid>)
    requires rest == before + [anchor] + after
    requires forall x :: x in placed ==> x !in rest
    requires forall x :: x in pending ==> x in prefer
    requires forall x :: x in rest ==> x !in prefer
    requires forall x :: x in after ==> x !in before && x != anchor
    ensures forall x :: x in placed + before + pending + [anchor] ==> x !in after
  {
    forall x | x in after ensures x !in placed + before + pending + [anchor] {
      assert x in rest;
    }
  }

  lemma {:induction false} SpliceIsWeave(local: seq<Uuid>, prefer: set<Uuid>, placed: seq<Uuid>, rest: seq<Uuid>,
                                         pending: seq<Uuid>, shared: set<Uuid>)
    requires Agree(local, prefer, rest, shared)
    requires forall x :: x in placed ==> x !in rest
    requires forall x :: x in pending ==> x in prefer
    ensures Splice(local, prefer, placed + rest, pending) == placed + Weave(local, prefer, rest, pending)
    decreases |local|
  {
    if local == [] {
      assert placed + rest + pending == placed + (rest + pending);
    } else if local[0] in prefer {
      WeavePending(local, prefer, rest, pending);
      AgreePending(local, prefer, rest, shared);
      SpliceIsWeave(local[1..], prefer, placed, rest, pending + [local[0]], shared);
    } else {
      var before, after := AgreeStep(local, prefer, rest, shared);
      var placed2 := placed + before + pending + [local[0]];
      SpliceAnchor(local, prefer, placed, before, after, pending);
      WeaveAnchor(local, prefer, rest, pending, before, after);
      StillApart(placed, before, pending, local[0], after, rest, prefer);
      SpliceIsWeave(local[1..], prefer, placed2, after, [], shared);
      Regroup(placed, before + pending + [local[0]], Weave(local[1..], prefer, after, []));
      Regroup(placed, before + pending, [local[0]]);
      Regroup(placed, before, pending);
    }
  }

  lemma {:induction false} PositionConcat(a: seq<Uuid>, b: seq<Uuid>, x: Uuid)
    requires x !in a
    ensures Position(a + b, x) == |a| + Position(b, x)
  {
    if a == [] {
      assert a + b == b;
    } else {
      assert (a + b)[1..] == a[1..] + b;
      PositionConcat(a[1..], b, x);
    }
  }

  lemma ElementsConcat(a: seq<Uuid>, b: seq<Uuid>)
    ensures Elements(a + b) == Elements(a) + Elements(b)
  {
  }

  lemma EmbedStep(local: seq<Uuid>, before: seq<Uuid>, pending: seq<Uuid>, tail: seq<Uuid>, shared: set<Uuid>)
    requires local != [] && local[0] in shared
    requires Only(before, shared) == [] && Only(pending, shared) == pending && Only(tail, shared) == local[1..]
    ensures Only(before + pending + [local[0]] + tail, shared) == pending + local
  {
    hide Only;
    OnlyAround(before, pending, local[0], tail, shared);
    assert pending + [local[0]] + local[1..] == pending + local;
  }

  lemma PendingKept(pending: seq<Uuid>, x: Uuid, shared: set<Uuid>)
    requires Only(pending, shared) == pending && x in shared
    ensures Only(pending + [x], shared) == pending + [x]
  {
    OnlyConcat(pending, [x], shared);
    assert Only([x], shared) == [x];
  }

  /** The weave embeds the whole of local's order. */
  lemma {:induction false} WeaveEmbeds(local: seq<Uuid>, prefer: set<Uuid>, rest: seq<Uuid>, pending: seq<Uuid>, shared: set<Uuid>)
    requires Agree(local, prefer, rest, shared)
    requires Only(pending, shared) == pending
    ensures Only(Weave(local, prefer, rest, pending), shared) == pending + local
    decreases |local|
  {
    if local == [] {
      OnlyConcat(rest, pending, shared);
    } else if local[0] in prefer {
      PendingKept(pending, local[0], shared);
      WeavePending(local, prefer, rest, pending);
      AgreePending(local, prefer, rest, shared);
      hide Only, Weave;
      WeaveEmbeds(local[1..], prefer, rest, pending + [local[0]], shared);
    } else {
      var before, after := AgreeStep(local, prefer, rest, shared);
      OnlyEmpty(shared);
      hide Only, Weave;
      WeaveEmbeds(local[1..], prefer, after, [], shared);
      assert [] + local[1..] == local[1..];
      EmbedStep(local, before, pending, Weave(local[1..], prefer, after, []), shared);
      WeaveAnchor(local, prefer, rest, pending, before, after);
    }
  }

  lemma OnlyEmpty(shared: set<Uuid>)
    ensures Only([], shared) == []
  {
  }

  lemma OnlyAround(before: seq<Uuid>, pending: seq<Uuid>, anchor: Uuid, tail: seq<Uuid>, shared: set<Uuid>)
    requires Only(before, shared) == [] && Only(pending, shared) == pending && anchor in shared
    ensures Only(before + pending + [anchor] + tail, shared) == pending + [anchor] + Only(tail, shared)
  {
    OnlyConcat(before + pending + [anchor], tail, shared);
    OnlyConcat(before + pending, [anchor], shared);
    OnlyConcat(before, pending, shared);
    assert Only([anchor], shared) == [anchor];
  }

  lemma ElementsAround(a: seq<Uuid>, b: seq<Uuid>, x: Uuid, c: seq<Uuid>)
    ensures Elements(a + b + [x] + c) == Elements(a) + Elements(b) + {x} + Elements(c)
  {
    ElementsConcat(a + b + [x], c);
    ElementsConcat(a + b, [x]);
    ElementsConcat(a, b);
  }

  /** The weave contains exactly the members of the lists it weaves. */
  lemma {:induction false} WeaveElements(local: seq<Uuid>, prefer: set<Uuid>, rest: seq<Uuid>, pending: seq<Uuid>, shared: set<Uuid>)
    requires Agree(local, prefer, rest, shared)
    ensures Elements(Weave(local, prefer, rest, pending)) == Elements(rest) + Elements(local) + Elements(pending)
    decreases |local|
  {
    if local == [] {
      ElementsConcat(rest, pending);
    } else {
      assert Elements([local[0]]) == {local[0]} && Elements<Uuid>([]) == {};
      hide Agree, Only, Without, Weave, Position, Elements;
      assert local == [local[0]] + local[1..];
      ElementsConcat([local[0]], local[1..]);
      if local[0] in prefer {
        WeavePending(local, prefer, rest, pending);
        AgreePending(local, prefer, rest, shared);
        WeaveElements(local[1..], prefer, rest, pending + [local[0]], shared);
        ElementsConcat(pending, [local[0]]);
      } else {
        var before, after := AgreeStep(local, prefer, rest, shared);
        WeaveElements(local[1..], prefer, after, [], shared);
        WeaveAnchor(local, prefer, rest, pending, before, after);
        ElementsAround(before, pending, local[0], Weave(local[1..], prefer, after, []));
        ElementsAround(before, [], local[0], after);
        assert before + [] == before;
      }
    }
  }

  /** The spliced order of two agreeing sides, before the final checks. */
  lemma AgreeingSplice(local: seq<Uuid>, remote: seq<Uuid>, prefer: set<Uuid>)
    requires Distinct(local) && Distinct(remote) && prefer <= Elements(local)
    requires Only(Without(remote, prefer), Elements(local)) == Without(local, prefer)
    ensures var order := Splice(local, prefer, Without(remote, prefer), []);
      && Only(order, Elements(local)) == local
      && Elements(order) == Elements(local) + (Elements(remote) - prefer)
      && Distinct(order)
  {
    hide Splice, Weave, Only, Without, Distinct;
    var rest, shared := Without(remote, prefer), Elements(local);
    OnlyEmpty(shared);
    DistinctWithout(remote, prefer);
    forall x ensures x in rest <==> x in remote && x !in prefer {
      InWithout(remote, prefer, x);
    }
    SpliceIsWeave(local, prefer, [], rest, [], shared);
    assert [] + rest == rest;
    var order := Weave(local, prefer, rest, []);
    assert [] + order == order && [] + local == local;
    WeaveEmbeds(local, prefer, rest, [], shared);
    WeaveElements(local, prefer, rest, [], shared);
    SpliceKeepsRemote(local, prefer, rest, []);
    WithoutNone(rest, prefer);
    OnlyOnly(order, shared, prefer);
    DistinctOnly(local, prefer);
    DistinctHalves(order, prefer);
  }

  /** An order that embeds the whole of local's breaks none of its pairs. */
  lemma NoBrokenPair(order: seq<Uuid>, local: seq<Uuid>, prefer: set<Uuid>)
    requires Distinct(order) && Only(order, Elements(local)) == local
    ensures !BreaksLocalPair(order, local, prefer)
  {
    hide Only, Distinct, Position;
    forall k | 0 <= k < |local| - 1 ensures Position(order, local[k]) < Position(order, local[k + 1]) {
      OnlyKeepsOrder(order, Elements(local), k, k + 1);
    }
  }

  /**
    When both sides list the shared non-preferred identifiers in one order, and
    the two lists cover the final identifiers, the rebase succeeds and its
    result contains both whole orders.
   */
  lemma AgreeingSidesRebase(parent: Uuid, kind: ObjectKind, finalIds: set<Uuid>,
                            local: seq<Uuid>, remote: seq<Uuid>, prefer: set<Uuid>)
    requires Distinct(local) && Distinct(remote)
    requires prefer <= Elements(local)
    requires Elements(local) <= finalIds
    requires Elements(remote) - prefer == finalIds - prefer
    requires Only(Without(remote, prefer), Elements(local)) == Without(local, prefer)
    ensures var r := Rebased(parent, kind, finalIds, local, remote, prefer);
      && r.Success?
      && Only(r.value, Elements(local)) == local
      && Without(r.value, prefer) == Without(remote, prefer)
  {
    hide Splice, Weave, Only, Without, Distinct, BreaksLocalPair;
    AgreeingSplice(local, remote, prefer);
    var order := Splice(local, prefer, Without(remote, prefer), []);
    assert Elements(order) == finalIds;
    ElementsSize(order);
    NoBrokenPair(order, local, prefer);
    RebasedIsSound(parent, kind, finalIds, local, remote, prefer);
  }

  // ---- The splicing loop ----

  method RebaseSiblingOrder(parent: Uuid, kind: ObjectKind, finalIds: set<Uuid>,
                            local: seq<Uuid>, remote: seq<Uuid>, prefer: set<Uuid>)
    returns (result: Result<seq<Uuid>, PatchError>)
    ensures result == Rebased(parent, kind, finalIds, local, remote, prefer)
  {
    var order, pending := Without(remote, prefer), [];
    for i := 0 to |local|
      invariant Splice(local[i..], prefer, order, pending) == Splice(local, prefer, Without(remote, prefer), [])
    {
      var id := local[i];
      assert local[i..][1..] == local[i + 1..];
      if id in prefer {
        pending := pending + [id];
      } else {
        var anchor := Position(order, id);
        if anchor < |order| {
          order := order[..anchor] + pending + order[anchor..];
          pending := [];
        }
      }
    }
    order := order + pending;
    if |order| != |finalIds| || Elements(order) != finalIds {
      return Failure(SiblingOrderChange(parent, kind));
    }
    var k := 0;
    while k + 1 < |local|
      invariant k >= 0
      invariant forall h :: 0 <= h < k && h < |local| - 1 && (local[h] in prefer || local[h + 1] in prefer) ==>
        Position(order, local[h]) < Position(order, local[h + 1])
    {
      if (local[k] in prefer || local[k + 1] in prefer) && Position(order, local[k]) >= Position(order, local[k + 1]) {
        return Failure(SiblingOrderChange(parent, kind));
      }
      k := k + 1;
    }
    return Success(order);
  }
}
