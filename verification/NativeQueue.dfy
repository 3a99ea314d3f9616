/** The order of native messaging requests, and how a new one finds its place. */
module NativeQueue {
  import opened Wrappers

  /** What the queue distinguishes about a command; a preload can also be overtaken. */
  datatype Kind = Handshake | Startup | Preload | OtherOvertakeable | Ordinary

  predicate CanStartupOvertake(k: Kind) {
    k == Preload || k == OtherOvertakeable
  }

  /** A chunked response being put together. */
  datatype Chunks = Chunks(count: int, nextIndex: int, totalCharacters: nat, parts: seq<string>)

  datatype Request = Request(id: nat, kind: Kind, chunks: Option<Chunks>)

  /** A later request may stand ahead of an earlier one only as a handshake, or a startup command passing overtakeable ones. */
  predicate MayPass(later: Request, earlier: Request) {
    later.kind == Handshake || (later.kind == Startup && CanStartupOvertake(earlier.kind))
  }

  ghost predicate Ordered(line: seq<Request>) {
    forall i, j :: 0 <= i < j < |line| && line[i].id > line[j].id ==> MayPass(line[i], line[j])
  }

  function Ids(line: seq<Request>): seq<nat> {
    seq(|line|, i requires 0 <= i < |line| => line[i].id)
  }

  /** Where a startup command goes: after the last request it may not overtake. */
  function StartupIndex(queue: seq<Request>): (k: nat)
    ensures k <= |queue|
    ensures forall j :: k <= j < |queue| ==> CanStartupOvertake(queue[j].kind)
    ensures k > 0 ==> !CanStartupOvertake(queue[k - 1].kind)
  {
    if queue == [] then 0
    else if !CanStartupOvertake(queue[|queue| - 1].kind) then |queue|
    else StartupIndex(queue[..|queue| - 1])
  }

  function InsertionIndex(queue: seq<Request>, kind: Kind, portAttached: bool): (k: nat)
    ensures k <= |queue|
  {
    if kind == Handshake && !portAttached then 0
    else if kind == Startup then StartupIndex(queue)
    else |queue|
  }

  function Inserted(queue: seq<Request>, request: Request, portAttached: bool): seq<Request> {
    var k := InsertionIndex(queue, request.kind, portAttached);
    queue[..k] + [request] + queue[k..]
  }

  /** A later request may be inserted ahead of exactly those it may pass. */
  lemma InsertAt(line: seq<Request>, at: nat, request: Request)
    requires Ordered(line) && at <= |line|
    requires forall i :: 0 <= i < |line| ==> line[i].id < request.id
    requires forall j :: at <= j < |line| ==> MayPass(request, line[j])
    ensures Ordered(line[..at] + [request] + line[at..])
  {
    var longer := line[..at] + [request] + line[at..];
    hide MayPass;
    forall i, j | 0 <= i < j < |longer| && longer[i].id > longer[j].id ensures MayPass(longer[i], longer[j]) {
      if i == at {
        assert longer[j] == line[j - 1];
      } else if j != at {
        assert longer[i] == line[if i < at then i else i - 1];
        assert longer[j] == line[if j < at then j else j - 1];
      }
    }
  }

  /** A new request keeps the line in order wherever its kind puts it. */
  lemma InsertionKeepsOrder(posted: seq<Request>, queue: seq<Request>, request: Request, portAttached: bool)
    requires Ordered(posted + queue) && forall i :: 0 <= i < |posted + queue| ==> (posted + queue)[i].id < request.id
    ensures Ordered(posted + Inserted(queue, request, portAttached))
  {
    var k := InsertionIndex(queue, request.kind, portAttached);
    var line, at := posted + queue, |posted| + k;
    assert forall j :: at <= j < |line| ==> line[j] == queue[j - |posted|];
    InsertAt(line, at, request);
    assert posted + Inserted(queue, request, portAttached) == line[..at] + [request] + line[at..];
  }

  /** Dropping a request keeps the rest in order. */
  lemma OrderedWithout(line: seq<Request>, k: nat)
    requires Ordered(line) && k < |line|
    ensures Ordered(line[..k] + line[k + 1..])
  {
    var shorter := line[..k] + line[k + 1..];
    forall i, j | 0 <= i < j < |shorter| && shorter[i].id > shorter[j].id ensures MayPass(shorter[i], shorter[j]) {
      assert shorter[i] == line[if i < k then i else i + 1];
      assert shorter[j] == line[if j < k then j else j + 1];
    }
  }

  /** In an ordered line, commands that nothing may pass, other than handshakes, keep the order they were sent in. */
  lemma OrdinaryKeepSendOrder(line: seq<Request>, i: nat, j: nat)
    requires Ordered(line) && i < j < |line|
    requires line[i].kind != Handshake && !CanStartupOvertake(line[j].kind)
    ensures line[i].id <= line[j].id
  {
  }

  lemma IdsConcat(a: seq<Request>, b: seq<Request>)
    ensures Ids(a + b) == Ids(a) + Ids(b)
  {
  }

  lemma InsertedIds(queue: seq<Request>, request: Request, portAttached: bool)
    ensures multiset(Ids(Inserted(queue, request, portAttached))) == multiset(Ids(queue)) + multiset{request.id}
  {
    var k := InsertionIndex(queue, request.kind, portAttached);
    assert queue == queue[..k] + queue[k..];
    IdsConcat(queue[..k], queue[k..]);
    IdsConcat(queue[..k] + [request], queue[k..]);
    IdsConcat(queue[..k], [request]);
    assert Ids([request]) == [request.id];
  }

  lemma RemovedIds(queue: seq<Request>, k: nat)
    requires k < |queue|
    ensures multiset(Ids(queue)) == multiset(Ids(queue[..k] + queue[k + 1..])) + multiset{queue[k].id}
  {
    assert queue == queue[..k] + ([queue[k]] + queue[k + 1..]);
    IdsConcat(queue[..k], [queue[k]] + queue[k + 1..]);
    IdsConcat([queue[k]], queue[k + 1..]);
    IdsConcat(queue[..k], queue[k + 1..]);
    assert Ids([queue[k]]) == [queue[k].id];
  }

  function WithoutPreloads(queue: seq<Request>): seq<Request> {
    if queue == [] then []
    else (if queue[0].kind == Preload then [] else [queue[0]]) + WithoutPreloads(queue[1..])
  }

  /** The preloads of a queue, the last one first. */
  function CanceledPreloads(queue: seq<Request>): seq<Request> {
    if queue == [] then []
    else CanceledPreloads(queue[1..]) + if queue[0].kind == Preload then [queue[0]] else []
  }

  lemma CanceledFirst(queue: seq<Request>)
    requires queue != []
    ensures queue[0].kind == Preload ==> Ids(CanceledPreloads(queue)) == Ids(CanceledPreloads(queue[1..])) + [queue[0].id]
    ensures queue[0].kind != Preload ==> CanceledPreloads(queue) == CanceledPreloads(queue[1..])
  {
  }

  ghost predicate Increasing(at: seq<nat>) {
    forall i, j :: 0 <= i < j < |at| ==> at[i] < at[j]
  }

  /** A selection of a queue, by position. */
  ghost predicate Picks(part: seq<Request>, queue: seq<Request>, at: seq<nat>) {
    && |at| == |part| && Increasing(at)
    && forall i :: 0 <= i < |at| ==> at[i] < |queue| && part[i] == queue[at[i]]
  }

  ghost function Backwards(part: seq<Request>): seq<Request> {
    seq(|part|, i requires 0 <= i < |part| => part[|part| - 1 - i])
  }

  function Shifted(at: seq<nat>): seq<nat> {
    seq(|at|, i requires 0 <= i < |at| => at[i] + 1)
  }

  /** Exactly the preloads leave, from the last to the first, and the others keep their order. */
  lemma {:induction false} PreloadsLeave(queue: seq<Request>) returns (kept: seq<nat>, left: seq<nat>)
    ensures Picks(WithoutPreloads(queue), queue, kept) && Picks(Backwards(CanceledPreloads(queue)), queue, left)
    ensures forall k: nat :: k in kept <==> k < |queue| && queue[k].kind != Preload
    ensures forall k: nat :: k in left <==> k < |queue| && queue[k].kind == Preload
  {
    hide Picks, Shifted, Backwards;
    kept, left := [], [];
    NothingPicked(queue);
    if queue != [] {
      var k, l := PreloadsLeave(queue[1..]);
      ShiftedPicks(WithoutPreloads(queue[1..]), queue, k);
      ShiftedPicks(Backwards(CanceledPreloads(queue[1..])), queue, l);
      BackwardsFirst(queue);
      if queue[0].kind == Preload {
        kept, left := Shifted(k), [0] + Shifted(l);
      } else {
        kept, left := [0] + Shifted(k), Shifted(l);
      }
      ShiftedMembers(k);
      ShiftedMembers(l);
    }
  }

  lemma NothingPicked(queue: seq<Request>)
    ensures Picks([], queue, []) && Backwards([]) == []
  {
  }

  lemma BackwardsPush(part: seq<Request>, last: Request)
    ensures Backwards(part + [last]) == [last] + Backwards(part)
  {
  }

  lemma BackwardsFirst(queue: seq<Request>)
    requires queue != []
    ensures queue[0].kind == Preload ==>
      Backwards(CanceledPreloads(queue)) == [queue[0]] + Backwards(CanceledPreloads(queue[1..]))
    ensures queue[0].kind == Preload ==> WithoutPreloads(queue) == WithoutPreloads(queue[1..])
    ensures queue[0].kind != Preload ==> CanceledPreloads(queue) == CanceledPreloads(queue[1..])
  {
    hide Backwards;
    CanceledFirst(queue);
    WithoutFirst(queue);
    BackwardsPush(CanceledPreloads(queue[1..]), queue[0]);
  }

  lemma WithoutFirst(queue: seq<Request>)
    requires queue != []
    ensures WithoutPreloads(queue) ==
      if queue[0].kind == Preload then WithoutPreloads(queue[1..]) else [queue[0]] + WithoutPreloads(queue[1..])
  {
    var rest := WithoutPreloads(queue[1..]);
    assert [] + rest == rest;
  }

  lemma ShiftedPicks(part: seq<Request>, queue: seq<Request>, at: seq<nat>)
    requires queue != [] && Picks(part, queue[1..], at)
    ensures Picks(part, queue, Shifted(at))
    ensures Picks([queue[0]] + part, queue, [0] + Shifted(at))
  {
  }

  lemma ShiftedMembers(at: seq<nat>)
    ensures forall k: nat :: k in Shifted(at) <==> k > 0 && k - 1 in at
    ensures forall k: nat :: k in [0] + Shifted(at) <==> k == 0 || k - 1 in at
  {
    forall k: nat | k > 0 && k - 1 in at ensures k in Shifted(at) {
      var i :| 0 <= i < |at| && at[i] == k - 1;
      assert Shifted(at)[i] == k;
    }
  }

  /** Where a request goes: a handshake that opens the connection first, a startup command past what it may overtake, others last. */
  lemma InsertedExactly(queue: seq<Request>, request: Request, portAttached: bool) returns (k: nat)
    ensures k <= |queue| && Inserted(queue, request, portAttached) == queue[..k] + [request] + queue[k..]
    ensures request.kind == Handshake && !portAttached ==> k == 0
    ensures request.kind == Handshake && portAttached ==> k == |queue|
    ensures request.kind in {Preload, OtherOvertakeable, Ordinary} ==> k == |queue|
    ensures request.kind == Startup ==> forall j :: k <= j < |queue| ==> queue[j].kind in {Preload, OtherOvertakeable}
    ensures request.kind == Startup && k > 0 ==> queue[k - 1].kind !in {Preload, OtherOvertakeable}
  {
    k := InsertionIndex(queue, request.kind, portAttached);
  }
}
