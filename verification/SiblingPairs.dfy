/** Sibling orders pair by pair, and what it means that local reordered siblings. */
module SiblingPairs {
  import opened Wrappers
  import opened IdOrder
  import opened Model
  import opened Forest
  import opened Tree
  import opened Siblings
  import opened SiblingOrder
  import opened SiblingMerge
  import opened RecordLaws

  /** Both records stand under `p`, the first before the second: by position, then by identifier. */
  ghost predicate Comes<V>(m: Records<V>, p: Uuid, x: Uuid, y: Uuid) {
    && x in m && y in m && m[x].parent == Some(p) && m[y].parent == Some(p)
    && (m[x].order < m[y].order || (m[x].order == m[y].order && x < y))
  }

  lemma SortedPositions(ids: set<Uuid>, rank: map<Uuid, nat>, x: Uuid, y: Uuid)
    requires x in ids && y in ids
    ensures Before(rank, x, y) <==> Position(SortIds(ids, rank), x) < Position(SortIds(ids, rank), y)
  {
    var q := SortIds(ids, rank);
    assert x in Elements(q) && y in Elements(q);
    hide SortIds, Elements, Position;
    var i, j := Position(q, x), Position(q, y);
    assert q[i] == x && q[j] == y;
    if i < j {
      assert Before(rank, q[i], q[j]);
    } else if j < i {
      assert Before(rank, q[j], q[i]);
    }
  }

  lemma ListedOrder<V>(m: Records<V>, ids: set<Uuid>, p: Uuid, x: Uuid, y: Uuid)
    requires ids <= ChildIds(m, p) && x in ids && y in ids
    ensures var q := SortIds(ids, Ranks(m));
      Comes(m, p, x, y) <==> Position(q, x) < Position(q, y)
  {
    hide SortIds, Position;
    SortedPositions(ids, Ranks(m), x, y);
  }

  /** The record stands under `p` in all three versions. */
  ghost predicate Stays<V>(base: Records<V>, local: Records<V>, remote: Records<V>, p: Uuid, id: Uuid) {
    && id in base && id in local && id in remote
    && base[id].parent == Some(p) && local[id].parent == Some(p) && remote[id].parent == Some(p)
  }

  /** Local swapped two siblings that stayed, and two of those that stayed stand otherwise in remote. */
  ghost predicate Reordered<V>(base: Records<V>, local: Records<V>, remote: Records<V>, p: Uuid) {
    && (exists x, y :: Stays(base, local, remote, p, x) && Stays(base, local, remote, p, y)
          && Comes(base, p, x, y) && Comes(local, p, y, x))
    && (exists x, y :: Stays(base, local, remote, p, x) && Stays(base, local, remote, p, y)
          && Comes(remote, p, x, y) && Comes(local, p, y, x))
  }

  lemma HeadIsFirst(q: seq<Uuid>, x: Uuid)
    requires q != [] && Distinct(q) && x in q && x != q[0]
    ensures Position(q, q[0]) < Position(q, x) && Position(q, x) == Position(q[1..], x) + 1
  {
    assert q[Position(q, x)] == x;
  }

  lemma InBoth(a: seq<Uuid>, b: seq<Uuid>, x: Uuid)
    requires Elements(a) == Elements(b)
    ensures x in a <==> x in b
  {
    assert x in a <==> x in Elements(a);
    assert x in b <==> x in Elements(b);
  }

  lemma SameHead(a: seq<Uuid>, b: seq<Uuid>)
    requires Distinct(a) && Distinct(b) && a != [] && b != [] && a[0] in b && b[0] in a
    requires forall x, y :: x in a && y in a && Position(a, x) < Position(a, y) ==> Position(b, x) < Position(b, y)
    ensures a[0] == b[0]
  {
    hide Position;
    if b[0] != a[0] {
      HeadIsFirst(a, b[0]);
      HeadIsFirst(b, a[0]);
    }
  }

  /** Two listings of the same identifiers that agree on every pair are equal. */
  lemma {:induction false} SamePairsSameList(a: seq<Uuid>, b: seq<Uuid>)
    requires Distinct(a) && Distinct(b) && Elements(a) == Elements(b) && |a| == |b|
    requires forall x, y :: x in a && y in a && Position(a, x) < Position(a, y) ==> Position(b, x) < Position(b, y)
    ensures a == b
    decreases |a|
  {
    hide Position;
    if a != [] {
      InBoth(a, b, a[0]);
      InBoth(a, b, b[0]);
      SameHead(a, b);
      DistinctTail(a);
      DistinctTail(b);
      hide Distinct, Elements;
      var u, w := a[1..], b[1..];
      assert a == [a[0]] + u && b == [a[0]] + w;
      ElementsOfCons(a[0], u);
      ElementsOfCons(a[0], w);
      assert a[0] !in u && a[0] !in w;
      assert Elements(u) == Elements(a) - {a[0]} && Elements(w) == Elements(b) - {a[0]};
      forall x, y | x in u && y in u && Position(u, x) < Position(u, y) ensures Position(w, x) < Position(w, y) {
        InBoth(u, w, x);
        InBoth(u, w, y);
        HeadIsFirst(a, x);
        HeadIsFirst(a, y);
        HeadIsFirst(b, x);
        HeadIsFirst(b, y);
      }
      SamePairsSameList(u, w);
    }
  }

  lemma ComesOneWay<V>(m: Records<V>, p: Uuid)
    ensures forall x, y :: Comes(m, p, x, y) ==> x != y && !Comes(m, p, y, x)
  {
  }

  lemma ComesEitherWay<V>(m: Records<V>, p: Uuid, x: Uuid, y: Uuid, ids: set<Uuid>)
    requires ids <= ChildIds(m, p) && x in ids && y in ids
    ensures x == y || Comes(m, p, x, y) || Comes(m, p, y, x)
  {
  }

  /** Two sides list the same siblings differently exactly when they disagree on a pair. */
  lemma DifferentOrders<V>(m: Records<V>, n: Records<V>, p: Uuid, shared: set<Uuid>)
    requires shared <= ChildIds(m, p) && shared <= ChildIds(n, p)
    ensures SortIds(shared, Ranks(m)) != SortIds(shared, Ranks(n))
       <==> exists x, y :: x in shared && y in shared && Comes(m, p, x, y) && Comes(n, p, y, x)
  {
    var a, b := SortIds(shared, Ranks(m)), SortIds(shared, Ranks(n));
    IncreasingIsDistinct(a, Ranks(m));
    IncreasingIsDistinct(b, Ranks(n));
    assert forall x :: x in a <==> x in Elements(a);
    ComesOneWay(m, p);
    ComesOneWay(n, p);
    hide SortIds, Increasing, Position, Comes, ChildIds, Ranks, Distinct, Elements;
    forall x, y | x in shared && y in shared
      ensures Comes(m, p, x, y) <==> Position(a, x) < Position(a, y)
      ensures Comes(n, p, x, y) <==> Position(b, x) < Position(b, y)
    {
      ListedOrder(m, shared, p, x, y);
      ListedOrder(n, shared, p, x, y);
    }
    if !exists x, y :: x in shared && y in shared && Comes(m, p, x, y) && Comes(n, p, y, x) {
      forall x, y | x in a && y in a && Position(a, x) < Position(a, y) ensures Position(b, x) < Position(b, y) {
        assert x in shared && y in shared && Comes(m, p, x, y) && !Comes(n, p, y, x);
        ComesEitherWay(n, p, x, y, shared);
      }
      ElementsSize(a);
      ElementsSize(b);
      SamePairsSameList(a, b);
    }
  }

  lemma SharedListing<V>(m: Records<V>, p: Uuid, shared: set<Uuid>)
    requires shared <= ChildIds(m, p)
    ensures Elements(ChildList(m, p)) == ChildIds(m, p) && Only(ChildList(m, p), shared) == SortIds(shared, Ranks(m))
  {
    SortOfFiltered(ChildIds(m, p), Ranks(m), shared);
    assert ChildIds(m, p) * shared == shared;
  }

  /** The representability check refuses exactly the reordered siblings. */
  lemma ReorderedExactly<V>(base: Records<V>, local: Records<V>, remote: Records<V>, p: Uuid)
    ensures LocalReorders(ChildList(base, p), ChildList(local, p), ChildList(remote, p))
       <==> Reordered(base, local, remote, p)
  {
    var shared := ChildIds(base, p) * ChildIds(local, p) * ChildIds(remote, p);
    assert forall id :: id in shared <==> Stays(base, local, remote, p, id);
    hide SortIds, ChildList, ChildIds, Only, Comes, Stays;
    SharedListing(base, p, shared);
    SharedListing(local, p, shared);
    SharedListing(remote, p, shared);
    DifferentOrders(base, local, p, shared);
    DifferentOrders(remote, local, p, shared);
  }
}
