/** Flattened trees: identifier-keyed records with a parent link, and walks along those links. */
module Forest {
  import opened Wrappers
  import opened IdOrder
  import opened Model

  datatype Flat<+V> = Flat(value: V, parent: Option<Uuid>, order: nat)

  type Records<V> = map<Uuid, Flat<V>>

  function ParentOf<V>(m: Records<V>, id: Uuid): Option<Uuid> {
    if id in m then m[id].parent else None
  }

  /** The record reached by following `n` parent links from `id`. */
  function Ancestor<V>(m: Records<V>, id: Uuid, n: nat): Option<Uuid>
    decreases n
  {
    if n == 0 then Some(id)
    else match ParentOf(m, id)
      case None => None
      case Some(parent) => Ancestor(m, parent, n - 1)
  }

  /** `candidate` is `ancestor` or lies below it. */
  predicate IsBelow<V>(m: Records<V>, candidate: Uuid, ancestor: Uuid) {
    exists n | 0 <= n <= |m| :: Ancestor(m, candidate, n) == Some(ancestor)
  }

  lemma {:induction false} AncestorSplit<V>(m: Records<V>, id: Uuid, i: nat, j: nat)
    ensures match Ancestor(m, id, i)
      case None => Ancestor(m, id, i + j) == None
      case Some(x) => Ancestor(m, id, i + j) == Ancestor(m, x, j)
    decreases i
  {
    if i > 0 && ParentOf(m, id).Some? {
      AncestorSplit(m, ParentOf(m, id).value, i - 1, j);
    }
  }

  ghost function Steps<V>(m: Records<V>, id: Uuid, n: nat): set<Uuid> {
    set i | 0 <= i < n && Ancestor(m, id, i).Some? :: Ancestor(m, id, i).value
  }

  /** A walk that has not met its goal visits a new record at every step. */
  lemma {:induction false} StepsAreNew<V>(m: Records<V>, id: Uuid, goal: Uuid, n: nat, k: nat)
    requires Ancestor(m, id, n) == Some(goal) && k <= n
    requires forall i: nat :: i < n ==> Ancestor(m, id, i) != Some(goal)
    ensures Steps(m, id, k) <= m.Keys && |Steps(m, id, k)| == k
  {
    if k > 0 {
      StepsAreNew(m, id, goal, n, k - 1);
      AncestorSplit(m, id, k - 1, n - k + 1);
      var x := Ancestor(m, id, k - 1).value;
      assert x in m;
      forall i: nat | i < k - 1 ensures Ancestor(m, id, i) != Some(x) {
        AncestorSplit(m, id, i, n - k + 1);
      }
      assert Steps(m, id, k) == Steps(m, id, k - 1) + {x};
    } else {
      assert Steps(m, id, 0) == {};
    }
  }

  /** Whatever any number of links reaches, at most one link per record reaches. */
  lemma {:induction false} ReachedIsBelow<V>(m: Records<V>, id: Uuid, goal: Uuid, n: nat)
    requires Ancestor(m, id, n) == Some(goal)
    ensures IsBelow(m, id, goal)
  {
    if i: nat :| i < n && Ancestor(m, id, i) == Some(goal) {
      ReachedIsBelow(m, id, goal, i);
    } else {
      StepsAreNew(m, id, goal, n, n);
      SubsetSize(Steps(m, id, n), m.Keys);
      assert |m.Keys| == |m|;
    }
  }

  lemma {:induction false} SubsetSize(a: set<Uuid>, b: set<Uuid>)
    requires a <= b
    ensures |a| <= |b|
  {
    if a != {} {
      var x :| x in a;
      SubsetSize(a - {x}, b - {x});
    }
  }

  lemma BelowSelf<V>(m: Records<V>, id: Uuid)
    ensures IsBelow(m, id, id)
  {
    assert Ancestor(m, id, 0) == Some(id);
  }

  lemma BelowTransitive<V>(m: Records<V>, a: Uuid, b: Uuid, c: Uuid)
    requires IsBelow(m, a, b) && IsBelow(m, b, c)
    ensures IsBelow(m, a, c)
  {
    var i :| 0 <= i <= |m| && Ancestor(m, a, i) == Some(b);
    var j :| 0 <= j <= |m| && Ancestor(m, b, j) == Some(c);
    AncestorSplit(m, a, i, j);
    ReachedIsBelow(m, a, c, i + j);
  }

  lemma BelowParent<V>(m: Records<V>, id: Uuid)
    requires ParentOf(m, id).Some?
    ensures IsBelow(m, id, ParentOf(m, id).value)
  {
    assert Ancestor(m, id, 1) == Some(ParentOf(m, id).value) by {
      assert Ancestor(m, ParentOf(m, id).value, 0) == Some(ParentOf(m, id).value);
    }
    ReachedIsBelow(m, id, ParentOf(m, id).value, 1);
  }

  /** Being strictly below something is being below it through one's parent. */
  lemma BelowThroughParent<V>(m: Records<V>, id: Uuid, ancestor: Uuid)
    requires IsBelow(m, id, ancestor) && id != ancestor
    ensures ParentOf(m, id).Some? && IsBelow(m, ParentOf(m, id).value, ancestor)
  {
    var n :| 0 <= n <= |m| && Ancestor(m, id, n) == Some(ancestor);
    assert n > 0;
    ReachedIsBelow(m, ParentOf(m, id).value, ancestor, n - 1);
  }

  // ---- Rooted hierarchies ----

  /** One parentless root that every record reaches. */
  ghost predicate Rooted<V>(m: Records<V>, root: Uuid) {
    root in m && m[root].parent.None? && forall id :: id in m ==> IsBelow(m, id, root)
  }

  /** Every parent link leads to a record, and only the root has none. */
  ghost predicate Linked<V>(m: Records<V>, root: Uuid) {
    && root in m && m[root].parent.None?
    && forall id :: id in m && id != root ==> m[id].parent.Some? && m[id].parent.value in m
  }

  lemma RootedIsLinked<V>(m: Records<V>, root: Uuid)
    requires Rooted(m, root)
    ensures Linked(m, root)
  {
    forall id | id in m && id != root
      ensures m[id].parent.Some? && m[id].parent.value in m
    {
      BelowThroughParent(m, id, root);
      var parent := m[id].parent.value;
      if parent != root {
        BelowThroughParent(m, parent, root);
      }
    }
  }

  lemma DepthUnique<V>(m: Records<V>, root: Uuid, id: Uuid, i: nat, j: nat)
    requires root in m && m[root].parent.None?
    requires Ancestor(m, id, i) == Some(root) && Ancestor(m, id, j) == Some(root)
    ensures i == j
  {
    var low, high := if i < j then i else j, if i < j then j else i;
    AncestorSplit(m, id, low, high - low);
  }

  /** How many links lead from a record to the root. */
  ghost function Depth<V>(m: Records<V>, root: Uuid, id: Uuid): (d: nat)
    requires Rooted(m, root) && id in m
    ensures Ancestor(m, id, d) == Some(root)
  {
    var d: nat :| Ancestor(m, id, d) == Some(root);
    d
  }

  lemma DepthOfChild<V>(m: Records<V>, root: Uuid, id: Uuid)
    requires Rooted(m, root) && id in m && m[id].parent.Some?
    ensures m[id].parent.value in m && Depth(m, root, id) == Depth(m, root, m[id].parent.value) + 1
  {
    RootedIsLinked(m, root);
    var parent := m[id].parent.value;
    assert Ancestor(m, id, Depth(m, root, parent) + 1) == Some(root);
    DepthUnique(m, root, id, Depth(m, root, id), Depth(m, root, parent) + 1);
  }

  // ---- The walks of the source ----

  method GroupIsBelowOrSame<V>(m: Records<V>, candidate: Uuid, ancestor: Uuid) returns (below: bool)
    ensures below == IsBelow(m, candidate, ancestor)
  {
    var current, visited := candidate, {};
    ghost var n: nat := 0;
    while true
      invariant Ancestor(m, candidate, n) == Some(current)
      invariant visited == Steps(m, candidate, n) && visited <= m.Keys
      invariant forall i: nat :: i < n ==> Ancestor(m, candidate, i).Some? && Ancestor(m, candidate, i) != Some(ancestor)
      decreases m.Keys - visited
    {
      if current == ancestor {
        ReachedIsBelow(m, candidate, ancestor, n);
        return true;
      }
      if current in visited {
        ghost var i: nat :| i < n && Ancestor(m, candidate, i) == Some(current);
        forall k: nat ensures Ancestor(m, candidate, k) != Some(ancestor) {
          WalkRepeats(m, candidate, i, n, k);
        }
        return false;
      }
      AncestorSplit(m, candidate, n, 1);
      if ParentOf(m, current).None? {
        forall k: nat ensures Ancestor(m, candidate, k) != Some(ancestor) {
          if k > n {
            AncestorSplit(m, candidate, n + 1, k - n - 1);
          }
        }
        return false;
      }
      var next := ParentOf(m, current).value;
      assert Steps(m, candidate, n + 1) == visited + {current};
      assert Ancestor(m, current, 1) == Some(next) by {
        assert Ancestor(m, next, 0) == Some(next);
      }
      visited := visited + {current};
      current, n := next, n + 1;
    }
  }

  /** Once a walk meets a record again it only repeats. */
  lemma {:induction false} WalkRepeats<V>(m: Records<V>, id: Uuid, i: nat, j: nat, k: nat)
    requires i < j && Ancestor(m, id, i) == Ancestor(m, id, j) && Ancestor(m, id, i).Some?
    ensures exists h: nat :: h < j && Ancestor(m, id, h) == Ancestor(m, id, k)
    decreases k
  {
    if k < j {
      assert Ancestor(m, id, k) == Ancestor(m, id, k);
    } else {
      AncestorSplit(m, id, j, k - j);
      AncestorSplit(m, id, i, k - j);
      WalkRepeats(m, id, i, j, k - j + i);
    }
  }

  /** The check of one record's chain: it must end at the root without repeating. */
  function Walk<V>(m: Records<V>, root: Uuid, id: Uuid, current: Uuid, visited: set<Uuid>): Outcome<PatchError>
    requires visited <= m.Keys
    decreases m.Keys - visited
  {
    if current in visited then Fail(GroupCycle(current))
    else if current !in m then Fail(MissingParent(current))
    else match m[current].parent
      case Some(parent) => Walk(m, root, id, parent, visited + {current})
      case None => if current == root then Pass else Fail(MissingParent(id))
  }

  function WalkAll<V>(m: Records<V>, root: Uuid, ids: seq<Uuid>): Outcome<PatchError> {
    if ids == [] then Pass
    else match Walk(m, root, ids[0], ids[0], {})
      case Fail(e) => Fail(e)
      case Pass => WalkAll(m, root, ids[1..])
  }

  function ValidateHierarchy<V>(root: Uuid, m: Records<V>): Outcome<PatchError> {
    if root !in m then Fail(MissingParent(root))
    else if m[root].parent.Some? then Fail(RootLineageMismatch)
    else WalkAll(m, root, Ascending(m.Keys))
  }

  lemma {:induction false} WalkReachesRoot<V>(m: Records<V>, root: Uuid, id: Uuid, current: Uuid, visited: set<Uuid>)
    requires visited <= m.Keys
    requires Walk(m, root, id, current, visited) == Pass
    ensures IsBelow(m, current, root)
    decreases m.Keys - visited
  {
    match m[current].parent
    case Some(parent) =>
      WalkReachesRoot(m, root, id, parent, visited + {current});
      BelowParent(m, current);
      BelowTransitive(m, current, parent, root);
    case None =>
      BelowSelf(m, current);
  }

  lemma {:induction false} ReachingWalkPasses<V>(
    m: Records<V>, root: Uuid, id: Uuid, current: Uuid, visited: set<Uuid>, d: nat)
    requires visited <= m.Keys && root in m && m[root].parent.None?
    requires Ancestor(m, current, d) == Some(root)
    requires forall v, e: nat :: v in visited && Ancestor(m, v, e) == Some(root) ==> e > d
    ensures Walk(m, root, id, current, visited) == Pass
    decreases d
  {
    if d > 0 {
      forall e: nat | Ancestor(m, current, e) == Some(root) ensures e == d {
        DepthUnique(m, root, current, d, e);
      }
      ReachingWalkPasses(m, root, id, m[current].parent.value, visited + {current}, d - 1);
    }
  }

  /** When links never leave the map, a chain can only fail by repeating. */
  lemma {:induction false} LinkedWalkFailsInCycle<V>(m: Records<V>, root: Uuid, id: Uuid, current: Uuid, visited: set<Uuid>)
    requires visited <= m.Keys && Linked(m, root) && current in m
    ensures var w := Walk(m, root, id, current, visited); w.Pass? || w.error.GroupCycle?
    decreases m.Keys - visited
  {
    if current !in visited && current != root {
      LinkedWalkFailsInCycle(m, root, id, m[current].parent.value, visited + {current});
    }
  }

  lemma {:induction false} WalkAllPasses<V>(m: Records<V>, root: Uuid, ids: seq<Uuid>)
    requires root in m && m[root].parent.None?
    ensures WalkAll(m, root, ids) == Pass <==> forall id :: id in ids ==> IsBelow(m, id, root)
    ensures Linked(m, root) && (forall id :: id in ids ==> id in m) ==>
      var w := WalkAll(m, root, ids); w.Pass? || w.error.GroupCycle?
  {
    if ids != [] {
      WalkAllPasses(m, root, ids[1..]);
      assert ids == [ids[0]] + ids[1..];
      if Walk(m, root, ids[0], ids[0], {}) == Pass {
        WalkReachesRoot(m, root, ids[0], ids[0], {});
      } else if IsBelow(m, ids[0], root) {
        var d :| 0 <= d <= |m| && Ancestor(m, ids[0], d) == Some(root);
        ReachingWalkPasses(m, root, ids[0], ids[0], {}, d);
      }
      if Linked(m, root) && ids[0] in m {
        LinkedWalkFailsInCycle(m, root, ids[0], ids[0], {});
      }
    }
  }

  /** Validation accepts exactly the rooted hierarchies. */
  lemma ValidateIsExact<V>(root: Uuid, m: Records<V>)
    ensures ValidateHierarchy(root, m).Pass? <==> Rooted(m, root)
    ensures Linked(m, root) ==>
      var v := ValidateHierarchy(root, m); v.Pass? || v.error.GroupCycle?
  {
    if root in m && m[root].parent.None? {
      var ids := Ascending(m.Keys);
      assert forall id :: id in m <==> id in Elements(ids);
      WalkAllPasses(m, root, ids);
    }
  }

  /** Walks up from one group, remembering what it passed. */
  method WalkUp<V>(m: Records<V>, root: Uuid, id: Uuid) returns (outcome: Outcome<PatchError>)
    ensures outcome == Walk(m, root, id, id, {})
  {
    var current, visited := id, {};
    while true
      invariant visited <= m.Keys
      invariant Walk(m, root, id, current, visited) == Walk(m, root, id, id, {})
      decreases m.Keys - visited
    {
      if current in visited {
        return Fail(GroupCycle(current));
      }
      if current !in m {
        return Fail(MissingParent(current));
      }
      visited := visited + {current};
      match m[current].parent
      case Some(parent) => current := parent;
      case None => return if current == root then Pass else Fail(MissingParent(id));
    }
  }

  lemma WalkStep<V>(m: Records<V>, root: Uuid, ids: seq<Uuid>, i: nat)
    requires i < |ids|
    ensures match Walk(m, root, ids[i], ids[i], {})
      case Fail(e) => WalkAll(m, root, ids[i..]) == Fail(e)
      case Pass => WalkAll(m, root, ids[i..]) == WalkAll(m, root, ids[i + 1..])
  {
    hide Walk;
    assert ids[i..][1..] == ids[i + 1..];
  }

  method ValidateGroupHierarchy<V>(root: Uuid, m: Records<V>) returns (outcome: Outcome<PatchError>)
    ensures outcome == ValidateHierarchy(root, m)
  {
    if root !in m {
      return Fail(MissingParent(root));
    }
    if m[root].parent.Some? {
      return Fail(RootLineageMismatch);
    }
    hide Walk;
    var ids := Ascending(m.Keys);
    for i := 0 to |ids|
      invariant WalkAll(m, root, ids[i..]) == WalkAll(m, root, ids)
    {
      WalkStep(m, root, ids, i);
      var walked := WalkUp(m, root, ids[i]);
      if walked.Fail? {
        return walked;
      }
    }
    return Pass;
  }
}
