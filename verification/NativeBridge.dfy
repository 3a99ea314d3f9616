/** The native messaging bridge: one active request, a queue behind it, and a port that may fail at any time. */
module NativeBridge {
  import opened Wrappers
  import opened NativeQueue
  import opened NativeTraffic
  import opened NativeAnswers

  const MAX_CHUNKS: int := 256
  const MAX_CHARACTERS: nat := 64 * 1024 * 1024

  /** A chunk sequence in progress: its parts are the chunks 0, 1, ... received so far. */
  ghost predicate Assembling(c: Chunks) {
    && 2 <= c.count <= MAX_CHUNKS && 0 < c.nextIndex < c.count && c.nextIndex == |c.parts|
    && c.totalCharacters == |Joined(c.parts)| <= MAX_CHARACTERS
  }

  lemma SettledPush(settled: seq<Settlement>, s: Settlement)
    ensures multiset(SettledIds(settled + [s])) == multiset(SettledIds(settled)) + multiset{s.id}
  {
    assert SettledIds(settled + [s]) == SettledIds(settled) + [s.id];
  }

  /** A request that leaves the queue and is settled is still counted once. */
  lemma MovedAcross(before: multiset<nat>, after: multiset<nat>, active: multiset<nat>,
                    rest: multiset<nat>, whole: multiset<nat>, id: nat)
    requires after == before + multiset{id} && whole == rest + multiset{id}
    ensures after + active + rest == before + active + whole
  {
  }

  ghost predicate SentBy(line: seq<Request>, n: nat) {
    forall i :: 0 <= i < |line| ==> line[i].id <= n
  }

  lemma SentPush(line: seq<Request>, request: Request, n: nat)
    requires SentBy(line, n) && request.id <= n
    ensures SentBy(line + [request], n)
  {
  }

  /** Queued requests have not received anything. */
  ghost predicate Waiting(queue: seq<Request>, n: nat) {
    forall i :: 0 <= i < |queue| ==> queue[i].id <= n && queue[i].chunks.None?
  }

  lemma WaitingWithout(queue: seq<Request>, k: nat, n: nat)
    requires Waiting(queue, n) && k < |queue|
    ensures Waiting(queue[..k] + queue[k + 1..], n)
  {
  }

  lemma WaitingRest(queue: seq<Request>, n: nat)
    requires Waiting(queue, n) && queue != []
    ensures Waiting(queue[1..], n)
  {
  }

  lemma WaitingInserted(queue: seq<Request>, request: Request, portAttached: bool, n: nat)
    requires Waiting(queue, n) && request.id <= n && request.chunks.None?
    ensures Waiting(Inserted(queue, request, portAttached), n)
  {
  }

  /** Taking the first request out of the queue. */
  lemma DroppedFirst(posted: seq<Request>, queue: seq<Request>)
    requires queue != []
    ensures multiset(Ids(queue)) == multiset(Ids(queue[1..])) + multiset{queue[0].id}
    ensures Ordered(posted + queue) ==> Ordered(posted + queue[1..])
  {
    RemovedIds(queue, 0);
    assert queue[..0] + queue[1..] == queue[1..];
    if Ordered(posted + queue) {
      OrderedWithout(posted + queue, |posted|);
      assert (posted + queue)[..|posted|] + (posted + queue)[|posted| + 1..] == posted + queue[1..];
    }
  }

  /** Exactly the identifiers 1 to `n`, each once. */
  ghost predicate EachOnce(ids: multiset<nat>, n: nat) {
    forall id :: ids[id] == if 1 <= id <= n then 1 else 0
  }

  /** When a chunk is the next of its sequence, and what it makes of the sequence. */
  lemma NextChunk(held: Option<Chunks>, index: int, count: int, data: string)
    requires held.Some? ==> Assembling(held.value)
    ensures var c := if index == 0 then Chunks(count, 0, 0, []) else held.GetOr(Chunks(0, 0, 0, []));
      && (Follows(held, index, count, data) <==>
            && 2 <= count <= MAX_CHUNKS && 0 <= index < count && !(index == 0 && held.Some?)
            && c.count == count && c.nextIndex == index && c.totalCharacters + |data| <= MAX_CHARACTERS)
      && (Follows(held, index, count, data) ==>
            && c.parts == held.GetOr(Chunks(0, 0, 0, [])).parts && |c.parts| == index
            && c.totalCharacters + |data| == |Joined(c.parts + [data])|
            && (index + 1 < count ==> Assembling(Chunks(count, index + 1, c.totalCharacters + |data|, c.parts + [data]))))
  {
    var c := if index == 0 then Chunks(count, 0, 0, []) else held.GetOr(Chunks(0, 0, 0, []));
    JoinedPush(c.parts, data);
    NothingJoined();
    hide Joined;
  }

  lemma NothingJoined()
    ensures Joined([]) == ""
  {
  }

  class Bridge {
    var port: Option<nat>
    var nextPort: nat
    var active: Option<Request>
    var queue: seq<Request>
    var nextRequestId: nat
    var connectionGeneration: nat
    var settled: seq<Settlement>
    var posted: seq<Request>

    ghost function Now(): Traffic
      reads this
    {
      Traffic(port, active, queue, settled, posted)
    }

    /** The requests that are settled, active or queued, with how often each is. */
    ghost function Whereabouts(): multiset<nat>
      reads this
    {
      multiset(SettledIds(settled)) + multiset(ActiveIds(active)) + multiset(Ids(queue))
    }

    /** Every request is in exactly one place, and there only once. */
    ghost predicate Accounted()
      reads this
    {
      EachOnce(Whereabouts(), nextRequestId)
    }

    ghost predicate InLine()
      reads this
    {
      Ordered(posted + queue)
      && SentBy(posted, nextRequestId)
      && Waiting(queue, nextRequestId)
    }

    ghost predicate Connected()
      reads this
    {
      && (port.Some? <==> connectionGeneration % 2 == 1)
      && (port.Some? ==> port.value < nextPort)
    }

    ghost predicate Valid()
      reads this
    {
      && Accounted() && InLine() && Connected()
      && (active.Some? && active.value.chunks.Some? ==> Assembling(active.value.chunks.value))
    }

    /** Between events, an active request is under way on a port. */
    ghost predicate Ready()
      reads this
    {
      Valid() && (active.Some? ==> port.Some?)
    }

    /** Nothing waits without something being under way. */
    ghost predicate Quiescent()
      reads this
    {
      Ready() && (active.None? ==> queue == [])
    }

    constructor ()
      ensures Quiescent() && nextRequestId == 0 && Now() == Traffic(None, None, [], [], [])
    {
      port, nextPort, active, queue := None, 0, None, [];
      nextRequestId, connectionGeneration, settled, posted := 0, 0, [], [];
      new;
      assert Whereabouts() == multiset{};
      assert posted + queue == [];
    }

    // ---- Settling ----

    method Settle(s: Settlement)
      modifies this`settled
      ensures settled == old(settled) + [s]
      ensures multiset(SettledIds(settled)) == multiset(SettledIds(old(settled))) + multiset{s.id}
    {
      SettledPush(settled, s);
      settled := settled + [s];
    }

    method RejectActive()
      requires Valid()
      modifies this`active, this`settled
      ensures Valid() && active.None?
      ensures settled == old(settled) + if old(active).Some? then [Rejected(old(active).value.id)] else []
    {
      if active.Some? {
        assert multiset(ActiveIds(active)) == multiset{active.value.id};
        Settle(Rejected(active.value.id));
        active := None;
        assert Whereabouts() == old(Whereabouts());
      }
    }

    method RejectFirst()
      requires Valid() && queue != []
      modifies this`queue, this`settled
      ensures Valid() && queue == old(queue)[1..] && settled == old(settled) + [Rejected(old(queue)[0].id)]
    {
      hide Ordered, EachOnce, Waiting, SentBy, Assembling, SettledIds, Ids, ActiveIds;
      DroppedFirst(posted, queue);
      WaitingRest(queue, nextRequestId);
      Settle(Rejected(queue[0].id));
      queue := queue[1..];
      MovedAcross(multiset(SettledIds(old(settled))), multiset(SettledIds(settled)), multiset(ActiveIds(active)),
                  multiset(Ids(queue)), multiset(Ids(old(queue))), old(queue)[0].id);
    }

    /** Rejects the active request, then everything queued behind it. */
    method RejectAll()
      requires Valid()
      modifies this`active, this`queue, this`settled
      ensures Valid() && active.None? && queue == []
      ensures settled == old(settled) + Rejections(ActiveIds(old(active)) + Ids(old(queue)))
    {
      hide Valid;
      RejectActive();
      RejectQueue();
      RejectionsConcat(old(settled), ActiveIds(old(active)), Ids(old(queue)));
    }

    method RejectQueue()
      requires Valid()
      modifies this`queue, this`settled
      ensures Valid() && queue == []
      ensures settled == old(settled) + Rejections(Ids(old(queue)))
    {
      hide Valid, Rejections, Ids;
      ghost var k := 0;
      NothingRejected(settled);
      while queue != []
        invariant Valid()
        invariant k <= |old(queue)| && queue == old(queue)[k..]
        invariant settled == old(settled) + Rejections(Ids(old(queue)[..k]))
        decreases |queue|
      {
        RejectionsStep(old(settled), old(queue), k);
        RejectFirst();
        k := k + 1;
      }
      assert old(queue)[..k] == old(queue);
    }

    method DetachPort()
      requires Valid()
      modifies this`port, this`connectionGeneration
      ensures Valid() && port.None?
      ensures connectionGeneration == old(connectionGeneration) + if old(port).Some? then 1 else 0
    {
      if port.Some? {
        port := None;
        connectionGeneration := connectionGeneration + 1;
      }
    }

    // ---- Making room for a startup command ----

    /** Rejects the k-th queued request. */
    method RejectAt(k: nat)
      requires Valid() && k < |queue|
      modifies this`queue, this`settled
      ensures Valid() && queue == old(queue[..k] + queue[k + 1..])
      ensures settled == old(settled) + [Rejected(old(queue[k]).id)]
    {
      hide Ordered, EachOnce, Waiting, SentBy, Assembling, SettledIds, Ids, ActiveIds;
      DroppedAt(posted, queue, k);
      WaitingWithout(queue, k, nextRequestId);
      Settle(Rejected(queue[k].id));
      queue := queue[..k] + queue[k + 1..];
      MovedAcross(multiset(SettledIds(old(settled))), multiset(SettledIds(settled)), multiset(ActiveIds(active)),
                  multiset(Ids(queue)), multiset(Ids(old(queue))), old(queue)[k].id);
    }

    method CancelQueuedPreloads(next: Kind)
      requires Valid()
      modifies this`queue, this`settled
      ensures Valid()
      ensures if next != Startup then queue == old(queue) && settled == old(settled)
              else
                && queue == WithoutPreloads(old(queue))
                && settled == old(settled) + Rejections(Ids(CanceledPreloads(old(queue))))
    {
      hide Valid, Rejections, WithoutPreloads, CanceledPreloads, Ids;
      if next != Startup {
        return;
      }
      var index := |queue|;
      NothingCanceled(queue, settled);
      while index > 0
        invariant Valid()
        invariant 0 <= index <= |old(queue)| && queue == old(queue)[..index] + WithoutPreloads(old(queue)[index..])
        invariant settled == old(settled) + Rejections(Ids(CanceledPreloads(old(queue)[index..])))
      {
        index := index - 1;
        StillToCancel(old(queue), queue, index, old(settled));
        CancelAt(index);
      }
    }

    method CancelAt(index: nat)
      requires Valid() && index < |queue|
      modifies this`queue, this`settled
      ensures Valid()
      ensures queue == if old(queue)[index].kind == Preload then old(queue[..index] + queue[index + 1..]) else old(queue)
      ensures settled == old(settled) + if old(queue)[index].kind == Preload then [Rejected(old(queue)[index].id)] else []
    {
      hide Valid;
      if queue[index].kind == Preload {
        RejectAt(index);
      }
    }

    method InterruptActivePreload()
      requires Valid() && active.Some?
      modifies this
      ensures Valid() && nextRequestId == old(nextRequestId)
      ensures Now() == old(Now()).(port := None, active := None, settled := old(settled) + [Rejected(old(active).value.id)])
    {
      hide Valid;
      RejectActive();
      DetachPort();
    }

    method PrepareForSend(next: Kind)
      requires Valid()
      modifies this
      ensures Valid() && nextRequestId == old(nextRequestId)
      ensures Now() == Prepared(old(Now()), next)
    {
      hide Valid, WithoutPreloads, CanceledPreloads, Rejections;
      CancelQueuedPreloads(next);
      if active.Some? && active.value.kind == Preload && next == Startup {
        InterruptActivePreload();
      }
    }

    // ---- Sending ----

    method FindStartupIndex() returns (insertion: nat)
      ensures insertion == StartupIndex(queue)
    {
      insertion := |queue|;
      var index := |queue|;
      assert queue[..|queue|] == queue;
      while index > 0
        invariant index <= |queue| && insertion == index
        invariant StartupIndex(queue[..index]) == StartupIndex(queue)
      {
        index := index - 1;
        assert queue[..index + 1][..index] == queue[..index];
        if !CanStartupOvertake(queue[index].kind) {
          return index + 1;
        }
        insertion := index;
      }
      assert queue[..0] == [];
    }

    method EnqueueRequest(request: Request)
      requires InLine() && request.chunks.None? && request.id == nextRequestId
      requires forall i :: 0 <= i < |posted + queue| ==> (posted + queue)[i].id < request.id
      requires EachOnce(Whereabouts() + multiset{request.id}, nextRequestId)
      modifies this`queue
      ensures InLine() && Accounted()
      ensures queue == Inserted(old(queue), request, port.Some?)
    {
      hide EachOnce, Ordered, Waiting, SentBy, SettledIds, ActiveIds, Ids, StartupIndex;
      InsertionKeepsOrder(posted, queue, request, port.Some?);
      InsertedIds(queue, request, port.Some?);
      WaitingInserted(queue, request, port.Some?, nextRequestId);
      if request.kind == Handshake && port.None? {
        queue := [request] + queue;
      } else if request.kind != Startup {
        queue := queue + [request];
      } else {
        var k := FindStartupIndex();
        queue := queue[..k] + [request] + queue[k..];
      }
      assert queue == Inserted(old(queue), request, port.Some?);
      assert Whereabouts() == old(Whereabouts()) + multiset{request.id};
    }

    /** Connects when there is no port; connecting may fail. */
    method EnsurePort(connects: bool) returns (connected: bool)
      requires Valid()
      modifies this`port, this`nextPort, this`connectionGeneration
      ensures Valid() && (connected <==> port.Some?) && (connected <==> old(port).Some? || connects)
      ensures old(port).Some? ==> connected && port == old(port) && connectionGeneration == old(connectionGeneration)
      ensures old(port).None? ==> connectionGeneration == old(connectionGeneration) + if connected then 1 else 0
    {
      connected := true;
      if port.None? {
        connected := connects;
        if connected {
          port, nextPort := Some(nextPort), nextPort + 1;
          connectionGeneration := connectionGeneration + 1;
        }
      }
    }

    /** Takes the first queued request up. */
    method ActivateFirst()
      requires Valid() && active.None? && queue != []
      modifies this`active, this`queue
      ensures Valid() && active == Some(old(queue)[0]) && queue == old(queue)[1..]
      ensures Ordered(posted + [active.value] + queue) && active.value.id <= nextRequestId
    {
      hide EachOnce, Ordered;
      DroppedFirst(posted, queue);
      assert posted + queue == posted + [queue[0]] + queue[1..];
      active := Some(queue[0]);
      queue := queue[1..];
      assert Whereabouts() == old(Whereabouts());
    }

    /** The active request goes out on the port. */
    method RecordPost()
      requires Valid() && active.Some? && active.value.id <= nextRequestId
      requires Ordered(posted + [active.value] + queue)
      modifies this`posted
      ensures Valid() && posted == old(posted) + [active.value]
    {
      hide EachOnce, Ordered, Waiting, SentBy, Assembling;
      SentPush(posted, active.value, nextRequestId);
      posted := posted + [active.value];
    }

    /** Posts the next queued request; a failed connection or post rejects everything. */
    method FlushQueue(link: Link)
      requires Ready()
      modifies this
      ensures Quiescent() && nextRequestId == old(nextRequestId)
      ensures if old(active).Some? then Now() == old(Now()) else TakesUp(old(Now()), Now(), link)
    {
      hide Accounted, InLine, Connected, Ordered, Assembling;
      if active.Some? || queue == [] {
        return;
      }
      ActivateFirst();
      var connected := EnsurePort(link.connects);
      if connected {
        RecordPost();
      }
      if !connected || !link.accepts {
        DetachPort();
        RejectAll();
      }
    }

    /** One call of `send`. */
    method Send(kind: Kind, link: Link)
      requires Ready()
      modifies this
      ensures Quiescent() && nextRequestId == old(nextRequestId) + 1
      ensures Sends(old(Now()), Now(), nextRequestId, kind, link)
    {
      hide Valid, WithoutPreloads, CanceledPreloads, Rejections, Inserted, TakesUp;
      PrepareForSend(kind);
      Admit(kind);
      FlushQueue(link);
    }

    /** Numbers a new request and queues it. */
    method Admit(kind: Kind)
      requires Valid()
      modifies this`nextRequestId, this`queue
      ensures Valid() && nextRequestId == old(nextRequestId) + 1
      ensures queue == Inserted(old(queue), Request(nextRequestId, kind, None), port.Some?)
    {
      hide EachOnce, Ordered, Waiting, SentBy, Assembling;
      NextIdIsNew(posted, queue, nextRequestId);
      OneMore(Whereabouts(), nextRequestId);
      nextRequestId := nextRequestId + 1;
      EnqueueRequest(Request(nextRequestId, kind, None));
    }

    // ---- What the port does ----

    /** Drops the connection and everything that waited for it. */
    method FailConnection(attached: nat)
      requires Ready()
      modifies this
      ensures Ready() && (old(Quiescent()) ==> Quiescent())
      ensures nextRequestId == old(nextRequestId)
      ensures if old(port) == Some(attached) then DropsAll(old(Now()), Now()) else Now() == old(Now())
    {
      if port != Some(attached) {
        return;
      }
      DetachPort();
      RejectAll();
    }

    /** The timer of one request on one port. */
    method OnTimeout(requestId: nat, attached: nat)
      requires Ready()
      modifies this
      ensures Ready() && (old(Quiescent()) ==> Quiescent())
      ensures nextRequestId == old(nextRequestId)
      ensures if old(port) == Some(attached) && old(active).Some? && old(active).value.id == requestId
              then DropsAll(old(Now()), Now()) else Now() == old(Now())
    {
      if active.None? || active.value.id != requestId || port != Some(attached) {
        return;
      }
      FailConnection(attached);
    }

    /** Accepts the next chunk of the active request, or reports that the sequence is invalid. */
    method AcceptChunk(index: int, count: int, data: string) returns (accepted: bool, whole: Option<string>)
      requires Ready() && active.Some?
      modifies this`active
      ensures Quiescent()
      ensures accepted <==> Follows(old(active).value.chunks, index, count, data)
      ensures !accepted ==> active == old(active) && whole == None
      ensures accepted ==>
        var parts := old(active).value.chunks.GetOr(Chunks(0, 0, 0, [])).parts + [data];
        if |parts| < count then whole == None && Holds(old(Now()), Now(), parts, count)
        else whole == Some(Joined(parts)) && active == Some(old(active).value.(chunks := None))
    {
      hide Accounted, InLine, Connected, Follows, Joined, Assembling;
      NextChunk(active.value.chunks, index, count, data);
      accepted, whole := false, None;
      var request := active.value;
      if count < 2 || count > MAX_CHUNKS || index < 0 || index >= count || (index == 0 && request.chunks.Some?) {
        return;
      }
      var chunks := if index == 0 then Chunks(count, 0, 0, []) else request.chunks.GetOr(Chunks(0, 0, 0, []));
      if chunks.count != count || chunks.nextIndex != index || chunks.totalCharacters + |data| > MAX_CHARACTERS {
        return;
      }
      chunks := Chunks(count, index + 1, chunks.totalCharacters + |data|, chunks.parts + [data]);
      accepted := true;
      if chunks.nextIndex == chunks.count {
        whole := Some(Joined(chunks.parts));
        KeepChunks(None);
      } else {
        KeepChunks(Some(chunks));
      }
    }

    /** The active request remembers the chunks it has received. */
    method KeepChunks(chunks: Option<Chunks>)
      requires Ready() && active.Some? && (chunks.Some? ==> Assembling(chunks.value))
      modifies this`active
      ensures Quiescent() && active == Some(old(active).value.(chunks := chunks))
    {
      hide EachOnce, Ordered, Waiting, SentBy, SettledIds, Ids, Assembling;
      active := Some(active.value.(chunks := chunks));
      assert ActiveIds(active) == ActiveIds(old(active));
    }

    method ResolveActive(payload: string, link: Link)
      requires Ready() && active.Some?
      modifies this
      ensures Quiescent() && nextRequestId == old(nextRequestId)
      ensures Answers(old(Now()), Now(), payload, link)
    {
      hide Ordered, EachOnce;
      assert multiset(ActiveIds(active)) == multiset{active.value.id};
      Settle(Resolved(active.value.id, payload));
      active := None;
      assert Whereabouts() == old(Whereabouts());
      FlushQueue(link);
    }

    /** A message from a port; messages of a port that is no longer attached are ignored. */
    method OnNativeMessage(attached: nat, response: Response, parse: string -> Option<Response>, link: Link)
      requires Ready()
      modifies this
      ensures Ready() && (old(Quiescent()) ==> Quiescent())
      ensures nextRequestId == old(nextRequestId)
      ensures if old(port) == Some(attached) && old(active).Some? then MessageEffect(old(Now()), Now(), response, parse, link)
              else Now() == old(Now())
      decreases if active.Some? && active.value.chunks.Some? then 1 else 0
    {
      hide Accounted, InLine, DropsAll, Answers, TakesUp, Joined;
      if port != Some(attached) || active.None? {
        return;
      }
      match response
      case Malformed => FailConnection(attached);
      case Chunk(requestId, index, count, data) =>
        if requestId != active.value.id {
          FailConnection(attached);
          return;
        }
        var accepted, whole := AcceptChunk(index, count, data);
        if !accepted {
          FailConnection(attached);
        } else if whole.Some? {
          match parse(whole.value)
          case None =>
            FailConnection(attached);
            DropsRegardless(old(Now()), Now());
          case Some(assembled) =>
            OnNativeMessage(attached, assembled, parse, link);
            EffectOfWhole(old(Now()), Now(), assembled, parse, link);
        }
      case Plain(answers, payload) =>
        if active.value.chunks.Some? || answers != Some(active.value.id) {
          FailConnection(attached);
          return;
        }
        ResolveActive(payload, link);
    }
  }

  /** Taking any request out of the queue. */
  lemma DroppedAt(posted: seq<Request>, queue: seq<Request>, k: nat)
    requires k < |queue|
    ensures multiset(Ids(queue)) == multiset(Ids(queue[..k] + queue[k + 1..])) + multiset{queue[k].id}
    ensures Ordered(posted + queue) ==> Ordered(posted + (queue[..k] + queue[k + 1..]))
  {
    RemovedIds(queue, k);
    if Ordered(posted + queue) {
      var line, at := posted + queue, |posted| + k;
      OrderedWithout(line, at);
      assert line[..at] + line[at + 1..] == posted + (queue[..k] + queue[k + 1..]);
    }
  }

  /** A fresh identifier exceeds every one in use, in a line that stays within bounds. */
  lemma NextIdIsNew(posted: seq<Request>, queue: seq<Request>, n: nat)
    requires SentBy(posted, n) && Waiting(queue, n)
    ensures SentBy(posted, n + 1) && Waiting(queue, n + 1)
    ensures forall i :: 0 <= i < |posted + queue| ==> (posted + queue)[i].id < n + 1
  {
  }

  lemma OneMore(ids: multiset<nat>, n: nat)
    requires EachOnce(ids, n)
    ensures EachOnce(ids + multiset{n + 1}, n + 1)
  {
  }

  // ---- Whole runs ----

  method Step(bridge: Bridge, event: BridgeEvent, parse: string -> Option<Response>)
    requires bridge.Ready()
    modifies bridge
    ensures bridge.Ready()
    ensures bridge.nextRequestId == old(bridge.nextRequestId) + if event.SendEvent? then 1 else 0
    ensures EventEffect(old(bridge.Now()), bridge.Now(), event, bridge.nextRequestId, parse)
    ensures old(bridge.settled) <= bridge.settled && old(bridge.posted) <= bridge.posted
    ensures event.SendEvent? || (!event.PrepareEvent? && old(bridge.Quiescent())) ==> bridge.Quiescent()
  {
    hide Bridge.Valid, WithoutPreloads, CanceledPreloads, Rejections, Sends, MessageEffect, DropsAll;
    Deliver(bridge, event, parse);
    EventsOnlyAdd(old(bridge.Now()), bridge.Now(), event, bridge.nextRequestId, parse);
  }

  /** Hands an event to the bridge. */
  method Deliver(bridge: Bridge, event: BridgeEvent, parse: string -> Option<Response>)
    requires bridge.Ready()
    modifies bridge
    ensures bridge.Ready()
    ensures bridge.nextRequestId == old(bridge.nextRequestId) + if event.SendEvent? then 1 else 0
    ensures EventEffect(old(bridge.Now()), bridge.Now(), event, bridge.nextRequestId, parse)
    ensures event.SendEvent? || (!event.PrepareEvent? && old(bridge.Quiescent())) ==> bridge.Quiescent()
  {
    hide Bridge.Valid, WithoutPreloads, CanceledPreloads, Rejections, Sends, MessageEffect, DropsAll;
    match event
    case SendEvent(kind, link) => bridge.Send(kind, link);
    case PrepareEvent(kind) => bridge.PrepareForSend(kind);
    case MessageEvent(port, response, link) => bridge.OnNativeMessage(port, response, parse, link);
    case DisconnectEvent(port) => bridge.FailConnection(port);
    case TimeoutEvent(requestId, port) => bridge.OnTimeout(requestId, port);
  }

  ghost predicate NeverPrepares(events: seq<BridgeEvent>) {
    forall e :: e in events ==> !e.PrepareEvent?
  }

  lemma NeverPreparedSoFar(events: seq<BridgeEvent>, i: nat)
    requires i < |events|
    ensures NeverPrepares(events[..i + 1]) ==> NeverPrepares(events[..i]) && !events[i].PrepareEvent?
  {
    assert events[..i + 1] == events[..i] + [events[i]];
  }

  /**
    Any sequence of events, with connections and posts failing at will. Only
    preparing without sending can leave requests queued with nothing under way,
    and the next send ends that.
   */
  method RunEvents(events: seq<BridgeEvent>, parse: string -> Option<Response>) returns (bridge: Bridge)
    ensures fresh(bridge) && bridge.Ready()
    ensures NeverPrepares(events) ==> bridge.Quiescent()
    ensures events != [] && events[|events| - 1].SendEvent? ==> bridge.Quiescent()
    ensures AllAnswered(events, bridge.settled, parse)
  {
    hide NeverPrepares, Bridge.Valid, EventEffect, Faithful;
    bridge := new Bridge();
    NothingYet(bridge.Now(), parse);
    for i := 0 to |events|
      invariant fresh(bridge) && bridge.Ready()
      invariant Faithful(events[..i], bridge.Now(), parse)
      invariant NeverPrepares(events[..i]) ==> bridge.Quiescent()
      invariant i > 0 && events[i - 1].SendEvent? ==> bridge.Quiescent()
    {
      NeverPreparedSoFar(events, i);
      ghost var before := bridge.Now();
      Step(bridge, events[i], parse);
      EventFaithfully(events[..i], events[i], before, bridge.Now(), bridge.nextRequestId, parse);
      assert events[..i + 1] == events[..i] + [events[i]];
    }
    assert events[..|events|] == events;
    FaithfullyAnswered(events, bridge.Now(), parse);
  }

  lemma {:induction false} CountsBelow(settled: seq<Settlement>, i: nat, j: nat)
    requires i < j < |settled| && settled[i].id == settled[j].id
    ensures multiset(SettledIds(settled))[settled[i].id] >= 2
  {
    var ids, id := SettledIds(settled), settled[i].id;
    assert ids == ids[..i] + [id] + ids[i + 1..j] + [id] + ids[j + 1..];
  }

  /** In every run each request is settled at most once, and a settled one is neither active nor queued. */
  lemma SettledOnce(bridge: Bridge, i: nat)
    requires bridge.Ready() && i < |bridge.settled|
    ensures 1 <= bridge.settled[i].id <= bridge.nextRequestId
    ensures forall j :: 0 <= j < |bridge.settled| && j != i ==> bridge.settled[j].id != bridge.settled[i].id
    ensures bridge.active.Some? ==> bridge.active.value.id != bridge.settled[i].id
    ensures forall k :: 0 <= k < |bridge.queue| ==> bridge.queue[k].id != bridge.settled[i].id
  {
    hide Ordered, Waiting, SentBy, Assembling;
    var id := bridge.settled[i].id;
    assert SettledIds(bridge.settled)[i] == id && id in multiset(SettledIds(bridge.settled));
    assert bridge.Whereabouts()[id] >= multiset(SettledIds(bridge.settled))[id] >= 1;
    forall j | 0 <= j < |bridge.settled| && j != i ensures bridge.settled[j].id != id {
      if bridge.settled[j].id == id {
        CountsBelow(bridge.settled, if i < j then i else j, if i < j then j else i);
        assert false;
      }
    }
    forall k | 0 <= k < |bridge.queue| ensures bridge.queue[k].id != id {
      assert Ids(bridge.queue)[k] == bridge.queue[k].id;
      assert bridge.queue[k].id in multiset(Ids(bridge.queue));
    }
    if bridge.active.Some? {
      assert ActiveIds(bridge.active)[0] == bridge.active.value.id;
      assert bridge.active.value.id in multiset(ActiveIds(bridge.active));
    }
  }

  /** In every run the posted commands that cannot be overtaken, handshakes aside, are in the order they were sent. */
  lemma PostedInSendOrder(bridge: Bridge, i: nat, j: nat)
    requires bridge.Ready() && i < j < |bridge.posted|
    requires bridge.posted[i].kind != Handshake && !CanStartupOvertake(bridge.posted[j].kind)
    ensures bridge.posted[i].id <= bridge.posted[j].id
  {
    var line := bridge.posted + bridge.queue;
    assert line[i] == bridge.posted[i] && line[j] == bridge.posted[j];
    OrdinaryKeepSendOrder(line, i, j);
  }
}
