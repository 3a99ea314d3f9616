/** Byte strings, their lexicographic order, and sorting of sets of them. */
module TextOrder {

  // A byte is held as the character of the same code, so that string literals
  // denote byte strings and the order on characters is the order on bytes.
  type Byte = c: char | c < '\U{0100}' witness 'a'
  type Text = seq<Byte>

  predicate Less(a: Text, b: Text) {
    b != [] && (a == [] || a[0] < b[0] || (a[0] == b[0] && Less(a[1..], b[1..])))
  }

  lemma {:induction false} LessTransitive(a: Text, b: Text, c: Text)
    requires Less(a, b) && Less(b, c)
    ensures Less(a, c)
  {
    if a != [] && a[0] == b[0] == c[0] {
      LessTransitive(a[1..], b[1..], c[1..]);
    }
  }

  lemma {:induction false} LessTotal(a: Text, b: Text)
    ensures Less(a, b) || a == b || Less(b, a)
  {
    if a != [] && b != [] && a[0] == b[0] {
      LessTotal(a[1..], b[1..]);
      assert a == [a[0]] + a[1..] && b == [b[0]] + b[1..];
    }
  }

  lemma {:induction false} LessAsymmetric(a: Text, b: Text)
    requires Less(a, b)
    ensures a != b && !Less(b, a)
  {
    if a != [] && a[0] == b[0] {
      LessAsymmetric(a[1..], b[1..]);
    }
  }

  predicate Increasing(q: seq<Text>) {
    forall i, j :: 0 <= i < j < |q| ==> Less(q[i], q[j])
  }

  function Elements(q: seq<Text>): set<Text> {
    set x | x in q
  }

  predicate IsLeast(m: Text, s: set<Text>) {
    m in s && forall x :: x in s ==> x == m || Less(m, x)
  }

  lemma {:induction false} LeastExists(s: set<Text>)
    requires s != {}
    ensures exists m :: IsLeast(m, s)
  {
    var y :| y in s;
    if s == {y} {
      assert IsLeast(y, s);
    } else {
      LeastExists(s - {y});
      var m :| IsLeast(m, s - {y});
      LessTotal(m, y);
      if Less(y, m) {
        forall x | x in s ensures x == y || Less(y, x) {
          if x != y && x != m {
            LessTransitive(y, m, x);
          }
        }
        assert IsLeast(y, s);
      } else {
        assert IsLeast(m, s);
      }
    }
  }

  lemma LeastUnique(a: Text, b: Text, s: set<Text>)
    requires IsLeast(a, s) && IsLeast(b, s)
    ensures a == b
  {
    if a != b {
      LessAsymmetric(a, b);
    }
  }

  function Least(s: set<Text>): (m: Text)
    requires s != {}
    ensures IsLeast(m, s)
  {
    LeastExists(s);
    assert forall a, b :: IsLeast(a, s) && IsLeast(b, s) ==> a == b by {
      forall a, b | IsLeast(a, s) && IsLeast(b, s) ensures a == b {
        LeastUnique(a, b, s);
      }
    }
    var m :| IsLeast(m, s);
    m
  }

  lemma ElementsOfCons(x: Text, q: seq<Text>)
    ensures Elements([x] + q) == {x} + Elements(q)
  {
    assert forall y :: y in [x] + q <==> y == x || y in q;
  }

  /** The least element ahead of the sorted others sorts the whole set. */
  lemma LeastFirst(m: Text, rest: seq<Text>, s: set<Text>)
    requires IsLeast(m, s) && Elements(rest) == s - {m} && Increasing(rest) && |rest| == |s - {m}|
    ensures Elements([m] + rest) == s && Increasing([m] + rest) && |[m] + rest| == |s|
  {
    hide Less;
    ElementsOfCons(m, rest);
    assert forall i :: 0 <= i < |rest| ==> rest[i] in Elements(rest);
  }

  /** The elements of `s`, each once, in increasing order. */
  function SortTexts(s: set<Text>): (q: seq<Text>)
    ensures Elements(q) == s
    ensures Increasing(q)
    ensures |q| == |s|
  {
    if s == {} then []
    else
      var m := Least(s);
      var rest := SortTexts(s - {m});
      LeastFirst(m, rest, s);
      [m] + rest
  }

  lemma FirstIsLeast(q: seq<Text>)
    requires q != [] && Increasing(q)
    ensures q[0] in Elements(q) && IsLeast(q[0], Elements(q))
    ensures Elements(q[1..]) == Elements(q) - {q[0]} && Increasing(q[1..])
  {
    hide Less;
    assert q == [q[0]] + q[1..];
    ElementsOfCons(q[0], q[1..]);
    forall x | x in q[1..] ensures Less(q[0], x) && x != q[0] {
      var j :| 0 <= j < |q[1..]| && q[1..][j] == x;
      assert q[j + 1] == x;
      LessAsymmetric(q[0], q[j + 1]);
    }
  }

  lemma SortedFromLeast(m: Text, s: set<Text>)
    requires m in s && IsLeast(m, s)
    ensures SortTexts(s) == [m] + SortTexts(s - {m})
  {
    hide IsLeast, Less, Increasing, Elements, Least;
    LeastUnique(Least(s), m, s);
  }

  /** An increasing listing of a set is the sorted one. */
  lemma {:induction false} SortTextsUnique(q: seq<Text>)
    requires Increasing(q)
    ensures SortTexts(Elements(q)) == q
    decreases |q|
  {
    if q == [] {
      assert Elements(q) == {};
    } else {
      hide Less, Increasing, IsLeast, Elements, Least, SortTexts;
      FirstIsLeast(q);
      SortedFromLeast(q[0], Elements(q));
      SortTextsUnique(q[1..]);
      assert q == [q[0]] + q[1..];
    }
  }
}
