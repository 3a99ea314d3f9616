/** Searching the passkey ceremony's transition table. */
module CeremonySearch {
  import opened Wrappers
  import opened IdOrder

  datatype Phase =
    | PreAuthorization
    | UserAuthorization
    | NetworkValidation
    | CredentialResolution
    | UserSelection
    | CompletionAndMutation

  type Edge = (Phase, Phase)

  /** What the mirror says about the request's origin. */
  datatype Mirror = Mirror(
    phase: Phase,
    originMatches: bool,
    relatedOriginUsable: bool,
    relatedOriginVerified: bool)

  predicate EdgeAllowed(m: Mirror, from: Phase, to: Phase) {
    if from == UserAuthorization && to == NetworkValidation then !m.originMatches && m.relatedOriginUsable
    else if from == UserAuthorization && to == CredentialResolution then m.originMatches
    else if from == NetworkValidation && to == CredentialResolution then m.relatedOriginVerified
    else true
  }

  // ---- Paths of allowed edges ----

  predicate Usable(edges: seq<Edge>, m: Mirror, e: Edge) {
    e in edges && EdgeAllowed(m, e.0, e.1)
  }

  /** `path` leads from one phase to another along usable edges. */
  predicate IsPath(edges: seq<Edge>, m: Mirror, from: Phase, path: seq<Edge>, to: Phase) {
    if path == [] then from == to
    else
      var last := path[|path| - 1];
      Usable(edges, m, last) && last.1 == to && IsPath(edges, m, from, path[..|path| - 1], last.0)
  }

  ghost predicate Reachable(edges: seq<Edge>, m: Mirror, from: Phase, to: Phase) {
    exists path :: IsPath(edges, m, from, path, to)
  }

  ghost predicate Shortest(edges: seq<Edge>, m: Mirror, from: Phase, path: seq<Edge>, to: Phase) {
    && IsPath(edges, m, from, path, to)
    && forall other :: IsPath(edges, m, from, other, to) ==> |path| <= |other|
  }

  lemma PathPush(edges: seq<Edge>, m: Mirror, from: Phase, path: seq<Edge>, e: Edge)
    requires IsPath(edges, m, from, path, e.0) && Usable(edges, m, e)
    ensures IsPath(edges, m, from, path + [e], e.1)
  {
    assert (path + [e])[..|path|] == path;
  }

  /** No usable edge leads out of a set that contains the start: nothing else is reachable. */
  lemma {:induction false} ClosedSetHoldsAll(edges: seq<Edge>, m: Mirror, from: Phase, path: seq<Edge>, to: Phase, inside: set<Phase>)
    requires from in inside && forall e :: Usable(edges, m, e) && e.0 in inside ==> e.1 in inside
    requires IsPath(edges, m, from, path, to)
    ensures to in inside
    decreases |path|
  {
    if path != [] {
      var last := path[|path| - 1];
      ClosedSetHoldsAll(edges, m, from, path[..|path| - 1], last.0, inside);
    }
  }

  // ---- Reachability ----

  ghost predicate Explored(edges: seq<Edge>, m: Mirror, seen: set<Phase>, queue: seq<Phase>) {
    forall e :: Usable(edges, m, e) && e.0 in seen && e.0 !in queue ==> e.1 in seen
  }

  ghost predicate AllReached(edges: seq<Edge>, m: Mirror, start: Phase, seen: set<Phase>) {
    forall p :: p in seen ==> Reachable(edges, m, start, p)
  }

  lemma ReachThrough(edges: seq<Edge>, m: Mirror, start: Phase, e: Edge)
    requires Reachable(edges, m, start, e.0) && Usable(edges, m, e)
    ensures Reachable(edges, m, start, e.1)
  {
    var path :| IsPath(edges, m, start, path, e.0);
    PathPush(edges, m, start, path, e);
  }

  /** Scans the edges out of one phase. */
  method Expand(edges: seq<Edge>, m: Mirror, current: Phase, target: Phase, seenBefore: set<Phase>, rest: seq<Phase>)
    returns (found: bool, seen: set<Phase>, queue: seq<Phase>)
    requires forall p :: p in rest ==> p in seenBefore
    ensures found ==> Usable(edges, m, (current, target))
    ensures !found ==>
      && seenBefore <= seen && rest <= queue
      && (forall p :: p in queue ==> p in seen)
      && (forall p :: p in seen && p !in seenBefore ==> p in queue && Usable(edges, m, (current, p)))
      && (forall p :: p in queue && p !in rest ==> p !in seenBefore)
      && (forall e :: Usable(edges, m, e) && e.0 == current ==> e.1 in seen)
      && (target !in seenBefore ==> target !in seen)
      && (seen == seenBefore ==> queue == rest)
  {
    found, seen, queue := false, seenBefore, rest;
    for i := 0 to |edges|
      invariant seenBefore <= seen && rest <= queue
      invariant forall p :: p in queue ==> p in seen
      invariant forall p :: p in seen && p !in seenBefore ==> p in queue && Usable(edges, m, (current, p))
      invariant forall p :: p in queue && p !in rest ==> p !in seenBefore
      invariant forall j :: 0 <= j < i && edges[j].0 == current && EdgeAllowed(m, current, edges[j].1) ==> edges[j].1 in seen
      invariant target !in seenBefore ==> target !in seen
      invariant seen == seenBefore ==> queue == rest
    {
      var (edgeStart, edgeEnd) := edges[i];
      if edgeStart != current || edgeEnd in seen || !EdgeAllowed(m, edgeStart, edgeEnd) {
        continue;
      }
      if edgeEnd == target {
        assert edges[i] == (current, target);
        return true, seen, queue;
      }
      assert edges[i] == (current, edgeEnd);
      seen := seen + {edgeEnd};
      queue := queue + [edgeEnd];
    }
  }

  lemma ExpandedExplores(edges: seq<Edge>, m: Mirror, current: Phase, seenBefore: set<Phase>, rest: seq<Phase>,
                         seen: set<Phase>, queue: seq<Phase>)
    requires current in seenBefore && Explored(edges, m, seenBefore, [current] + rest)
    requires seenBefore <= seen && rest <= queue
    requires forall p :: p in seen && p !in seenBefore ==> p in queue
    requires forall e :: Usable(edges, m, e) && e.0 == current ==> e.1 in seen
    ensures Explored(edges, m, seen, queue)
  {
    forall e | Usable(edges, m, e) && e.0 in seen && e.0 !in queue ensures e.1 in seen {
      assert e.0 in seenBefore;
      if e.0 != current {
        assert e.0 !in [current] + rest;
      }
    }
  }

  /** True exactly when a non-empty path of allowed edges joins two distinct phases. */
  method CanReachActivePhase(edges: seq<Edge>, m: Mirror, target: Phase) returns (reachable: bool)
    ensures reachable <==> m.phase != target && Reachable(edges, m, m.phase, target)
  {
    var start := m.phase;
    if start == target {
      return false;
    }
    var seen, queue := {start}, [start];
    assert IsPath(edges, m, start, [], start);
    while queue != []
      invariant start in seen && target !in seen
      invariant forall p :: p in queue ==> p in seen
      invariant Explored(edges, m, seen, queue)
      invariant AllReached(edges, m, start, seen)
      decreases AllPhases() - seen, |queue|
    {
      var current, rest := queue[0], queue[1..];
      assert queue == [current] + rest;
      var found, nextSeen, nextQueue := Expand(edges, m, current, target, seen, rest);
      if found {
        ReachThrough(edges, m, start, (current, target));
        return true;
      }
      ExpandedExplores(edges, m, current, seen, rest, nextSeen, nextQueue);
      forall p | p in nextSeen ensures Reachable(edges, m, start, p) {
        if p !in seen {
          ReachThrough(edges, m, start, (current, p));
        }
      }
      FewerUnseen(seen, nextSeen);
      seen, queue := nextSeen, nextQueue;
    }
    if Reachable(edges, m, start, target) {
      ghost var path :| IsPath(edges, m, start, path, target);
      ClosedSetHoldsAll(edges, m, start, path, target, seen);
    }
    return false;
  }

  function AllPhases(): set<Phase> {
    {PreAuthorization, UserAuthorization, NetworkValidation, CredentialResolution, UserSelection, CompletionAndMutation}
  }

  /** Seeing more phases leaves fewer to see. */
  lemma FewerUnseen(before: set<Phase>, after: set<Phase>)
    requires before <= after
    ensures AllPhases() - after <= AllPhases() - before
    ensures before != after ==> AllPhases() - after < AllPhases() - before
  {
    if before != after {
      var p: Phase :| p in after && p !in before;
      assert p.PreAuthorization? || p.UserAuthorization? || p.NetworkValidation? || p.CredentialResolution?
          || p.UserSelection? || p.CompletionAndMutation?;
      assert p in AllPhases() - before && p !in AllPhases() - after;
    }
  }
}
