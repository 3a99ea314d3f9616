/** The shortest replay of a mirror's phase, and the replay itself. */
module CeremonyReplay {
  import opened Wrappers
  import opened CeremonySearch

  datatype Item = Item(phase: Phase, path: seq<Edge>)

  function Phases(queue: seq<Item>): set<Phase> {
    set i | 0 <= i < |queue| :: queue[i].phase
  }

  /** Everything within `k` steps of the start has been seen. */
  ghost predicate SeenWithin(edges: seq<Edge>, m: Mirror, start: Phase, seen: set<Phase>, k: nat) {
    forall path, p :: IsPath(edges, m, start, path, p) && |path| <= k ==> p in seen
  }

  ghost predicate ShortestItems(edges: seq<Edge>, m: Mirror, start: Phase, queue: seq<Item>) {
    forall i :: 0 <= i < |queue| ==> Shortest(edges, m, start, queue[i].path, queue[i].phase)
  }

  /** Path lengths never fall along the queue and span at most two levels. */
  ghost predicate InLevels(queue: seq<Item>) {
    forall i, j :: 0 <= i <= j < |queue| ==> |queue[i].path| <= |queue[j].path| <= |queue[i].path| + 1
  }

  ghost predicate ExploredItems(edges: seq<Edge>, m: Mirror, seen: set<Phase>, queue: seq<Item>) {
    forall e :: Usable(edges, m, e) && e.0 in seen && e.0 !in Phases(queue) ==> e.1 in seen
  }

  /** The invariant of the breadth-first search. */
  ghost predicate Searching(edges: seq<Edge>, m: Mirror, start: Phase, seen: set<Phase>, queue: seq<Item>) {
    && start in seen && Phases(queue) <= seen
    && ShortestItems(edges, m, start, queue)
    && InLevels(queue)
    && ExploredItems(edges, m, seen, queue)
    && (queue != [] ==> SeenWithin(edges, m, start, seen, |queue[0].path|))
  }

  lemma SearchStart(edges: seq<Edge>, m: Mirror, start: Phase)
    ensures Searching(edges, m, start, {start}, [Item(start, [])])
  {
    assert IsPath(edges, m, start, [], start);
    var queue := [Item(start, [])];
    assert queue[0].phase == start;
    assert Phases(queue) == {start};
  }

  /** A phase not seen within `k` steps, reached in `k + 1`, is reached by a shortest path. */
  lemma NewIsShortest(edges: seq<Edge>, m: Mirror, start: Phase, seen: set<Phase>, path: seq<Edge>, e: Edge)
    requires SeenWithin(edges, m, start, seen, |path|) && e.1 !in seen
    requires IsPath(edges, m, start, path, e.0) && Usable(edges, m, e)
    ensures Shortest(edges, m, start, path + [e], e.1)
  {
    PathPush(edges, m, start, path, e);
  }

  /** What expanding one item adds. */
  ghost predicate Expanded(edges: seq<Edge>, m: Mirror, current: Item, target: Phase,
                           before: set<Phase>, rest: seq<Item>, seen: set<Phase>, queue: seq<Item>) {
    && before <= seen && |rest| <= |queue| && queue[..|rest|] == rest
    && (forall i :: |rest| <= i < |queue| ==>
          && queue[i].phase in seen && queue[i].phase !in before
          && Usable(edges, m, (current.phase, queue[i].phase))
          && queue[i].path == current.path + [(current.phase, queue[i].phase)])
    && (forall p :: p in seen && p !in before ==> p in Phases(queue))
    && (target !in before ==> target !in seen)
    && (seen == before ==> queue == rest)
  }

  lemma PushedPhases(queue: seq<Item>, item: Item)
    ensures Phases(queue + [item]) == Phases(queue) + {item.phase}
  {
    var longer := queue + [item];
    assert longer[|queue|] == item;
    forall p | p in Phases(queue) ensures p in Phases(longer) {
      var i :| 0 <= i < |queue| && queue[i].phase == p;
      assert longer[i] == queue[i];
    }
  }

  method ExpandItem(edges: seq<Edge>, m: Mirror, current: Item, target: Phase, before: set<Phase>, rest: seq<Item>)
    returns (found: bool, seen: set<Phase>, queue: seq<Item>)
    ensures found ==> Usable(edges, m, (current.phase, target)) && target !in before
    ensures !found ==>
      && Expanded(edges, m, current, target, before, rest, seen, queue)
      && (forall e :: Usable(edges, m, e) && e.0 == current.phase ==> e.1 in seen)
  {
    found, seen, queue := false, before, rest;
    for i := 0 to |edges|
      invariant Expanded(edges, m, current, target, before, rest, seen, queue)
      invariant forall j :: 0 <= j < i && edges[j].0 == current.phase ==>
        (EdgeAllowed(m, current.phase, edges[j].1) ==> edges[j].1 in seen)
    {
      var (edgeStart, edgeEnd) := edges[i];
      if edgeStart != current.phase || edgeEnd in seen || !EdgeAllowed(m, edgeStart, edgeEnd) {
        continue;
      }
      assert edges[i] == (current.phase, edgeEnd);
      if edgeEnd == target {
        return true, seen, queue;
      }
      PushedPhases(queue, Item(edgeEnd, current.path + [(edgeStart, edgeEnd)]));
      seen := seen + {edgeEnd};
      queue := queue + [Item(edgeEnd, current.path + [(edgeStart, edgeEnd)])];
    }
  }

  lemma StepKeepsLevels(edges: seq<Edge>, m: Mirror, current: Item, target: Phase,
                        before: set<Phase>, rest: seq<Item>, seen: set<Phase>, queue: seq<Item>)
    requires InLevels([current] + rest) && Expanded(edges, m, current, target, before, rest, seen, queue)
    ensures InLevels(queue)
    ensures queue != [] ==> |current.path| <= |queue[0].path| <= |current.path| + 1
  {
    var whole := [current] + rest;
    forall i | 0 <= i < |queue| ensures |current.path| <= |queue[i].path| <= |current.path| + 1 {
      if i < |rest| {
        assert queue[i] == queue[..|rest|][i] == whole[i + 1] && whole[0] == current;
      }
    }
    forall i, j | 0 <= i <= j < |queue| ensures |queue[i].path| <= |queue[j].path| {
      if j < |rest| {
        assert queue[i] == queue[..|rest|][i] == whole[i + 1] && queue[j] == queue[..|rest|][j] == whole[j + 1];
      }
    }
  }

  lemma StepKeepsShortest(edges: seq<Edge>, m: Mirror, start: Phase, current: Item, target: Phase,
                          before: set<Phase>, rest: seq<Item>, seen: set<Phase>, queue: seq<Item>)
    requires ShortestItems(edges, m, start, [current] + rest)
    requires SeenWithin(edges, m, start, before, |current.path|)
    requires Expanded(edges, m, current, target, before, rest, seen, queue)
    ensures ShortestItems(edges, m, start, queue)
  {
    var whole := [current] + rest;
    assert whole[0] == current;
    forall i | 0 <= i < |queue| ensures Shortest(edges, m, start, queue[i].path, queue[i].phase) {
      if i < |rest| {
        assert queue[i] == queue[..|rest|][i] == whole[i + 1];
      } else {
        NewIsShortest(edges, m, start, before, current.path, (current.phase, queue[i].phase));
      }
    }
  }

  lemma StepKeepsExplored(edges: seq<Edge>, m: Mirror, current: Item, target: Phase,
                          before: set<Phase>, rest: seq<Item>, seen: set<Phase>, queue: seq<Item>)
    requires ExploredItems(edges, m, before, [current] + rest)
    requires Expanded(edges, m, current, target, before, rest, seen, queue)
    requires forall e :: Usable(edges, m, e) && e.0 == current.phase ==> e.1 in seen
    ensures ExploredItems(edges, m, seen, queue)
  {
    var whole := [current] + rest;
    forall e | Usable(edges, m, e) && e.0 in seen && e.0 !in Phases(queue) ensures e.1 in seen {
      if e.0 != current.phase {
        assert e.0 in before;
        forall i | 0 <= i < |whole| ensures whole[i].phase != e.0 {
          if i > 0 {
            assert whole[i] == queue[..|rest|][i - 1] == queue[i - 1];
          }
        }
      }
    }
  }

  /** Once a level is used up, everything one step further has been seen. */
  lemma NextLevelSeen(edges: seq<Edge>, m: Mirror, start: Phase, before: set<Phase>, seen: set<Phase>, queue: seq<Item>, k: nat)
    requires before <= seen && SeenWithin(edges, m, start, before, k)
    requires ShortestItems(edges, m, start, queue) && forall i :: 0 <= i < |queue| ==> |queue[i].path| > k
    requires ExploredItems(edges, m, seen, queue)
    ensures SeenWithin(edges, m, start, seen, k + 1)
  {
    forall path: seq<Edge>, p | IsPath(edges, m, start, path, p) && |path| <= k + 1 ensures p in seen {
      if |path| == k + 1 {
        var last, init := path[k], path[..k];
        assert IsPath(edges, m, start, init, last.0);
        assert last.0 in before;
        forall i | 0 <= i < |queue| ensures queue[i].phase != last.0 {
          assert Shortest(edges, m, start, queue[i].path, queue[i].phase);
        }
      }
    }
  }

  lemma SearchStep(edges: seq<Edge>, m: Mirror, start: Phase, current: Item, target: Phase,
                   before: set<Phase>, rest: seq<Item>, seen: set<Phase>, queue: seq<Item>)
    requires Searching(edges, m, start, before, [current] + rest)
    requires Expanded(edges, m, current, target, before, rest, seen, queue)
    requires forall e :: Usable(edges, m, e) && e.0 == current.phase ==> e.1 in seen
    ensures Searching(edges, m, start, seen, queue)
  {
    hide InLevels, ShortestItems, ExploredItems, SeenWithin, Usable, Phases;
    assert ([current] + rest)[0] == current;
    assert before <= seen;
    QueuedAreSeen(edges, m, current, target, before, rest, seen, queue);
    hide Expanded;
    StepKeepsLevels(edges, m, current, target, before, rest, seen, queue);
    StepKeepsShortest(edges, m, start, current, target, before, rest, seen, queue);
    StepKeepsExplored(edges, m, current, target, before, rest, seen, queue);
    StepSeesLevel(edges, m, start, before, seen, queue, |current.path|);
  }

  lemma QueuedAreSeen(edges: seq<Edge>, m: Mirror, current: Item, target: Phase,
                      before: set<Phase>, rest: seq<Item>, seen: set<Phase>, queue: seq<Item>)
    requires Phases([current] + rest) <= before && Expanded(edges, m, current, target, before, rest, seen, queue)
    ensures Phases(queue) <= seen
  {
    hide Usable, EdgeAllowed;
    var whole := [current] + rest;
    forall p | p in Phases(queue) ensures p in seen {
      var i :| 0 <= i < |queue| && queue[i].phase == p;
      if i < |rest| {
        assert queue[i] == queue[..|rest|][i] == whole[i + 1];
        assert p in Phases(whole);
      }
    }
  }

  /** Everything as near as the new head of the queue has been seen. */
  lemma StepSeesLevel(edges: seq<Edge>, m: Mirror, start: Phase, before: set<Phase>, seen: set<Phase>, queue: seq<Item>, k: nat)
    requires before <= seen && SeenWithin(edges, m, start, before, k)
    requires ShortestItems(edges, m, start, queue) && InLevels(queue) && ExploredItems(edges, m, seen, queue)
    requires queue != [] ==> k <= |queue[0].path| <= k + 1
    ensures queue != [] ==> SeenWithin(edges, m, start, seen, |queue[0].path|)
  {
    hide ShortestItems, ExploredItems, IsPath;
    if queue != [] && |queue[0].path| == k + 1 {
      NextLevelSeen(edges, m, start, before, seen, queue, k);
    }
  }

  /** The target found out of the head of the queue is reached by a shortest path. */
  lemma FoundIsShortest(edges: seq<Edge>, m: Mirror, start: Phase, current: Item, rest: seq<Item>, seen: set<Phase>, target: Phase)
    requires Searching(edges, m, start, seen, [current] + rest) && target !in seen
    requires Usable(edges, m, (current.phase, target))
    ensures Shortest(edges, m, start, current.path + [(current.phase, target)], target)
  {
    assert ([current] + rest)[0] == current;
    NewIsShortest(edges, m, start, seen, current.path, (current.phase, target));
  }

  lemma ShortestReaches(edges: seq<Edge>, m: Mirror, start: Phase, path: seq<Edge>, target: Phase)
    requires Shortest(edges, m, start, path, target)
    ensures Reachable(edges, m, start, target)
  {
  }

  lemma ExpandedGrows(edges: seq<Edge>, m: Mirror, current: Item, target: Phase,
                      before: set<Phase>, rest: seq<Item>, seen: set<Phase>, queue: seq<Item>)
    requires Expanded(edges, m, current, target, before, rest, seen, queue) && target !in before
    ensures before <= seen && target !in seen && (seen == before ==> queue == rest)
  {
  }

  lemma StartIsReached(edges: seq<Edge>, m: Mirror, start: Phase)
    ensures Shortest(edges, m, start, [], start) && Reachable(edges, m, start, start)
  {
    assert IsPath(edges, m, start, [], start);
  }

  lemma Exhausted(edges: seq<Edge>, m: Mirror, start: Phase, seen: set<Phase>, target: Phase)
    requires Searching(edges, m, start, seen, []) && target !in seen
    ensures !Reachable(edges, m, start, target)
  {
    if Reachable(edges, m, start, target) {
      var other :| IsPath(edges, m, start, other, target);
      assert Phases([]) == {};
      ClosedSetHoldsAll(edges, m, start, other, target, seen);
    }
  }

  /** The transitions that replay a mirror's phase: a shortest path from the first phase, or none exists. */
  method ReplayTransitions(edges: seq<Edge>, m: Mirror) returns (path: Option<seq<Edge>>)
    ensures path.Some? ==> Shortest(edges, m, PreAuthorization, path.value, m.phase)
    ensures path.None? <==> !Reachable(edges, m, PreAuthorization, m.phase)
  {
    hide *;
    var start, target := PreAuthorization, m.phase;
    if target == start {
      StartIsReached(edges, m, start);
      return Some([]);
    }
    var seen, queue := {start}, [Item(start, [])];
    SearchStart(edges, m, start);
    while queue != []
      invariant Searching(edges, m, start, seen, queue)
      invariant target !in seen
      decreases AllPhases() - seen, |queue|
    {
      var current, rest := queue[0], queue[1..];
      assert queue == [current] + rest;
      var found, nextSeen, nextQueue := ExpandItem(edges, m, current, target, seen, rest);
      if found {
        FoundIsShortest(edges, m, start, current, rest, seen, target);
        ShortestReaches(edges, m, start, current.path + [(current.phase, target)], target);
        return Some(current.path + [(current.phase, target)]);
      }
      SearchStep(edges, m, start, current, target, seen, rest, nextSeen, nextQueue);
      ExpandedGrows(edges, m, current, target, seen, rest, nextSeen, nextQueue);
      FewerUnseen(seen, nextSeen);
      seen, queue := nextSeen, nextQueue;
    }
    Exhausted(edges, m, start, seen, target);
    return None;
  }

  // ---- Replaying against the native side ----

  /** The native side reads the flag only on the edge that relies on a verified related origin. */
  predicate CarriesVerification(e: Edge) {
    e == (NetworkValidation, CredentialResolution)
  }

  datatype Replay = Replay(replayedPhase: Option<Phase>, lastNativePhase: Option<Phase>)

  /** How many leading transitions the native side accepts. */
  function Accepted(path: seq<Edge>, accepts: (Edge, bool) -> bool): nat {
    if path == [] || !accepts(path[0], CarriesVerification(path[0])) then 0 else 1 + Accepted(path[1..], accepts)
  }

  lemma {:induction false} AcceptedBound(path: seq<Edge>, accepts: (Edge, bool) -> bool)
    ensures Accepted(path, accepts) <= |path|
    ensures forall i :: 0 <= i < Accepted(path, accepts) ==> accepts(path[i], CarriesVerification(path[i]))
    ensures Accepted(path, accepts) < |path| ==>
      !accepts(path[Accepted(path, accepts)], CarriesVerification(path[Accepted(path, accepts)]))
  {
    if path != [] && accepts(path[0], CarriesVerification(path[0])) {
      AcceptedBound(path[1..], accepts);
    }
  }

  /** Where a path stands after its first `n` edges. */
  function StandsAt(path: seq<Edge>, n: nat): Phase
    requires n <= |path|
  {
    if n == 0 then PreAuthorization else path[n - 1].1
  }

  lemma {:induction false} PathPrefix(edges: seq<Edge>, m: Mirror, from: Phase, path: seq<Edge>, to: Phase, n: nat)
    requires IsPath(edges, m, from, path, to) && n <= |path|
    ensures IsPath(edges, m, from, path[..n], if n == 0 then from else path[n - 1].1)
    decreases |path|
  {
    if n < |path| {
      var init := path[..|path| - 1];
      PathPrefix(edges, m, from, init, path[|path| - 1].0, n);
      assert init[..n] == path[..n];
    } else {
      assert path[..n] == path;
    }
  }

  /**
    The replay ends at the mirror's phase when every transition is accepted, and
    otherwise at the end of the longest accepted run of leading transitions, a
    phase the native side really reached along allowed edges.
   */
  method ReplayMirrorPhase(edges: seq<Edge>, m: Mirror, accepts: (Edge, bool) -> bool) returns (replay: Replay)
    ensures replay.lastNativePhase.None? <==> !Reachable(edges, m, PreAuthorization, m.phase)
    ensures replay.replayedPhase.Some? ==> replay == Replay(Some(m.phase), Some(m.phase))
    ensures replay.lastNativePhase.Some? ==>
      exists path :: Shortest(edges, m, PreAuthorization, path, m.phase)
        && Accepted(path, accepts) <= |path|
        && replay.lastNativePhase == Some(StandsAt(path, Accepted(path, accepts)))
        && (replay.replayedPhase.Some? <==> Accepted(path, accepts) == |path|)
  {
    var found := ReplayTransitions(edges, m);
    if found.None? {
      return Replay(None, None);
    }
    var path := found.value;
    AcceptedBound(path, accepts);
    var last := PreAuthorization;
    for i := 0 to |path|
      invariant Accepted(path, accepts) == i + Accepted(path[i..], accepts)
      invariant last == StandsAt(path, i)
    {
      assert path[i..][1..] == path[i + 1..] && path[i..][0] == path[i];
      if !accepts(path[i], CarriesVerification(path[i])) {
        assert Accepted(path, accepts) == i;
        return Replay(None, Some(last));
      }
      last := path[i].1;
    }
    return Replay(Some(m.phase), Some(last));
  }

  /** The phase a partial replay ends at was reached along allowed edges. */
  lemma ReplayStaysOnPath(edges: seq<Edge>, m: Mirror, path: seq<Edge>, accepts: (Edge, bool) -> bool)
    requires IsPath(edges, m, PreAuthorization, path, m.phase) && Accepted(path, accepts) <= |path|
    ensures Reachable(edges, m, PreAuthorization, StandsAt(path, Accepted(path, accepts)))
    ensures Accepted(path, accepts) == |path| ==> StandsAt(path, |path|) == m.phase
  {
    PathPrefix(edges, m, PreAuthorization, path, m.phase, Accepted(path, accepts));
  }
}
