/** Sorting of identifier sets by a rank and then by the identifier itself. */
module IdOrder {

  // A UUID is used only through equality and its total order, which is the
  // order of the 128-bit number its bytes spell.
  type Uuid = nat

  function RankOf(rank: map<Uuid, nat>, id: Uuid): nat {
    if id in rank then rank[id] else 0
  }

  /** The lexicographic order on (rank, id). */
  predicate Before(rank: map<Uuid, nat>, a: Uuid, b: Uuid) {
    RankOf(rank, a) < RankOf(rank, b) || (RankOf(rank, a) == RankOf(rank, b) && a < b)
  }

  predicate Increasing(q: seq<Uuid>, rank: map<Uuid, nat>) {
    forall i, j :: 0 <= i < j < |q| ==> Before(rank, q[i], q[j])
  }

  ghost predicate Distinct<T(!new)>(q: seq<T>) {
    forall i, j :: 0 <= i < j < |q| ==> q[i] != q[j]
  }

  function Elements<T>(q: seq<T>): set<T> {
    set x | x in q
  }

  predicate IsLeast(m: Uuid, s: set<Uuid>, rank: map<Uuid, nat>) {
    m in s && forall x :: x in s ==> x == m || Before(rank, m, x)
  }

  lemma {:induction false} LeastExists(s: set<Uuid>, rank: map<Uuid, nat>)
    requires s != {}
    ensures exists m :: IsLeast(m, s, rank)
  {
    var y :| y in s;
    if s == {y} {
      assert IsLeast(y, s, rank);
    } else {
      LeastExists(s - {y}, rank);
      var m :| IsLeast(m, s - {y}, rank);
      var least := if Before(rank, m, y) then m else y;
      forall x | x in s ensures x == least || Before(rank, least, x) {
        assert x == y || x in s - {y};
      }
      assert IsLeast(least, s, rank);
    }
  }

  function Least(s: set<Uuid>, rank: map<Uuid, nat>): (m: Uuid)
    requires s != {}
    ensures m in s && forall x :: x in s ==> x == m || Before(rank, m, x)
  {
    LeastExists(s, rank);
    var m :| IsLeast(m, s, rank);
    m
  }

  lemma ElementsOfCons(x: Uuid, q: seq<Uuid>)
    ensures Elements([x] + q) == {x} + Elements(q)
  {
    assert forall y :: y in [x] + q <==> y == x || y in q;
  }

  /** The elements of `s`, each once, in increasing (rank, id) order. */
  function SortIds(s: set<Uuid>, rank: map<Uuid, nat>): (q: seq<Uuid>)
    ensures Elements(q) == s
    ensures Increasing(q, rank)
  {
    if s == {} then []
    else
      var m := Least(s, rank);
      var rest := SortIds(s - {m}, rank);
      assert forall i :: 0 <= i < |rest| ==> rest[i] in Elements(rest);
      ElementsOfCons(m, rest);
      [m] + rest
  }

  function Ascending(s: set<Uuid>): (q: seq<Uuid>)
    ensures Elements(q) == s
    ensures forall i, j :: 0 <= i < j < |q| ==> q[i] < q[j]
  {
    var q := SortIds(s, map[]);
    assert forall i, j :: 0 <= i < j < |q| ==> Before(map[], q[i], q[j]);
    q
  }

  /** An increasing listing of a set is the sorted one. */
  lemma {:induction false} SortIdsUnique(q: seq<Uuid>, rank: map<Uuid, nat>)
    requires Increasing(q, rank)
    ensures SortIds(Elements(q), rank) == q
    decreases |q|
  {
    if q == [] {
      assert Elements(q) == {};
    } else {
      var s := Elements(q);
      assert q[0] in s;
      var m := Least(s, rank);
      var i :| 0 <= i < |q| && q[i] == m;
      assert m == q[0];
      assert s - {m} == Elements(q[1..]) by {
        forall x | x in s - {m} ensures x in q[1..] {
          var j :| 0 <= j < |q| && q[j] == x;
          assert q[1..][j - 1] == x;
        }
        forall x | x in q[1..] ensures x in s && x != m {
          var j :| 0 <= j < |q[1..]| && q[1..][j] == x;
          assert q[j + 1] == x && Before(rank, q[0], q[j + 1]);
        }
      }
      SortIdsUnique(q[1..], rank);
      assert q == [m] + q[1..];
    }
  }

  lemma IncreasingIsDistinct(q: seq<Uuid>, rank: map<Uuid, nat>)
    requires Increasing(q, rank)
    ensures Distinct(q)
  {
    forall i, j | 0 <= i < j < |q| ensures q[i] != q[j] {
      assert Before(rank, q[i], q[j]);
    }
  }
}
