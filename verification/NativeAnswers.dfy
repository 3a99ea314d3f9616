/** Every resolved request of a run was answered: by one message that names it, or by chunks that spell such a message. */
module NativeAnswers {
  import opened Wrappers
  import opened NativeQueue
  import opened NativeTraffic

  /**
    Where a response came from: one event, or the chunks of a text that spells
    it. Only the first chunk of a text can itself be spelled by earlier chunks.
   */
  datatype Trail =
    | Event(at: nat)
    | Spelled(first: Trail, id: nat, parts: seq<string>, rest: seq<nat>)

  function After(trail: Trail): nat {
    match trail
    case Event(at) => at + 1
    case Spelled(first, _, _, rest) => if rest == [] then After(first) else rest[|rest| - 1] + 1
  }

  ghost predicate Brings(event: BridgeEvent, port: nat, response: Response) {
    event.MessageEvent? && event.port == port && event.response == response
  }

  /** The chunks after the first arrived in order, each after the one before. */
  ghost predicate ChunksArrived(events: seq<BridgeEvent>, port: nat, id: nat, count: int, parts: seq<string>, rest: seq<nat>, start: nat) {
    && |parts| == |rest| + 1
    && forall j :: 0 <= j < |rest| ==>
        && (if j == 0 then start else rest[j - 1] + 1) <= rest[j] < |events|
        && Brings(events[rest[j]], port, Chunk(id, j + 1, count, parts[j + 1]))
  }

  ghost predicate Carried(events: seq<BridgeEvent>, port: nat, trail: Trail, response: Response, parse: string -> Option<Response>)
    decreases trail
  {
    match trail
    case Event(at) => at < |events| && Brings(events[at], port, response)
    case Spelled(first, id, parts, rest) =>
      && ChunksArrived(events, port, id, |parts|, parts, rest, After(first))
      && Carried(events, port, first, Chunk(id, 0, |parts|, parts[0]), parse)
      && parse(Joined(parts)) == Some(response)
  }

  /** An answer naming the request arrived, whole or in chunks. */
  ghost predicate AnswerArrived(events: seq<BridgeEvent>, id: nat, payload: string, parse: string -> Option<Response>) {
    exists port: nat, trail :: Carried(events, port, trail, Plain(Some(id), payload), parse)
  }

  ghost predicate AllAnswered(events: seq<BridgeEvent>, settled: seq<Settlement>, parse: string -> Option<Response>) {
    forall i :: 0 <= i < |settled| && settled[i].Resolved? ==>
      AnswerArrived(events, settled[i].id, settled[i].payload, parse)
  }

  /** The chunks that a request holds arrived on its port. */
  ghost predicate Held(events: seq<BridgeEvent>, port: nat, id: nat, count: int, parts: seq<string>, first: Trail, rest: seq<nat>,
                       parse: string -> Option<Response>) {
    && ChunksArrived(events, port, id, count, parts, rest, After(first))
    && Carried(events, port, first, Chunk(id, 0, count, parts[0]), parse)
  }

  ghost predicate ChunksHeld(events: seq<BridgeEvent>, now: Traffic, parse: string -> Option<Response>) {
    now.active.Some? && now.active.value.chunks.Some? ==>
      && now.port.Some?
      && var chunks := now.active.value.chunks.value;
      exists first: Trail, rest: seq<nat> :: Held(events, now.port.value, now.active.value.id, chunks.count, chunks.parts, first, rest, parse)
  }

  ghost predicate Fresh(queue: seq<Request>) {
    forall i :: 0 <= i < |queue| ==> queue[i].chunks == None
  }

  ghost predicate Faithful(events: seq<BridgeEvent>, now: Traffic, parse: string -> Option<Response>) {
    && AllAnswered(events, now.settled, parse)
    && ChunksHeld(events, now, parse)
    && Fresh(now.queue)
  }

  // ---- Later events change nothing about what arrived ----

  lemma {:induction false} CarriedMore(events: seq<BridgeEvent>, event: BridgeEvent, port: nat, trail: Trail, response: Response,
                                       parse: string -> Option<Response>)
    requires Carried(events, port, trail, response, parse)
    ensures Carried(events + [event], port, trail, response, parse)
    ensures After(trail) <= |events|
    decreases trail
  {
    if trail.Spelled? {
      CarriedMore(events, event, port, trail.first, Chunk(trail.id, 0, |trail.parts|, trail.parts[0]), parse);
    }
  }

  lemma AnswersMore(events: seq<BridgeEvent>, event: BridgeEvent, settled: seq<Settlement>, parse: string -> Option<Response>)
    requires AllAnswered(events, settled, parse)
    ensures AllAnswered(events + [event], settled, parse)
  {
    hide Carried;
    forall i | 0 <= i < |settled| && settled[i].Resolved?
      ensures AnswerArrived(events + [event], settled[i].id, settled[i].payload, parse)
    {
      var port: nat, trail :| Carried(events, port, trail, Plain(Some(settled[i].id), settled[i].payload), parse);
      CarriedMore(events, event, port, trail, Plain(Some(settled[i].id), settled[i].payload), parse);
    }
  }

  lemma HeldMore(events: seq<BridgeEvent>, event: BridgeEvent, now: Traffic, parse: string -> Option<Response>)
    requires ChunksHeld(events, now, parse)
    ensures ChunksHeld(events + [event], now, parse)
  {
    hide Carried;
    if now.active.Some? && now.active.value.chunks.Some? {
      var chunks, id, port := now.active.value.chunks.value, now.active.value.id, now.port.value;
      var first: Trail, rest: seq<nat> :| Held(events, port, id, chunks.count, chunks.parts, first, rest, parse);
      CarriedMore(events, event, port, first, Chunk(id, 0, chunks.count, chunks.parts[0]), parse);
      assert Held(events + [event], port, id, chunks.count, chunks.parts, first, rest, parse);
    }
  }

  lemma RejectionsAnswered(events: seq<BridgeEvent>, settled: seq<Settlement>, ids: seq<nat>, parse: string -> Option<Response>)
    requires AllAnswered(events, settled, parse)
    ensures AllAnswered(events, settled + Rejections(ids), parse)
    ensures forall id :: AllAnswered(events, settled + [Rejected(id)], parse)
  {
    hide AnswerArrived;
  }

  lemma ResolvedAnswered(events: seq<BridgeEvent>, settled: seq<Settlement>, id: nat, payload: string, parse: string -> Option<Response>)
    requires AllAnswered(events, settled, parse) && AnswerArrived(events, id, payload, parse)
    ensures AllAnswered(events, settled + [Resolved(id, payload)], parse)
  {
    hide AnswerArrived;
  }

  // ---- Each effect ----

  lemma DropsFaithfully(events: seq<BridgeEvent>, before: Traffic, after: Traffic, parse: string -> Option<Response>)
    requires Faithful(events, before, parse) && DropsAll(before, after)
    ensures Faithful(events, after, parse)
  {
    hide AllAnswered, Rejections;
    RejectionsAnswered(events, before.settled, ActiveIds(before.active) + Ids(before.queue), parse);
  }

  lemma TakesFaithfully(events: seq<BridgeEvent>, before: Traffic, after: Traffic, link: Link, parse: string -> Option<Response>)
    requires Faithful(events, before, parse) && before.active == None && TakesUp(before, after, link)
    ensures Faithful(events, after, parse)
  {
    hide AllAnswered, Rejections;
    RejectionsAnswered(events, before.settled, Ids(before.queue), parse);
  }

  lemma AnswersFaithfully(events: seq<BridgeEvent>, before: Traffic, after: Traffic, payload: string, link: Link,
                          parse: string -> Option<Response>)
    requires Faithful(events, before, parse) && Answers(before, after, payload, link)
    requires AnswerArrived(events, before.active.value.id, payload, parse)
    ensures Faithful(events, after, parse)
  {
    hide AllAnswered, AnswerArrived, TakesUp;
    ResolvedAnswered(events, before.settled, before.active.value.id, payload, parse);
    TakesFaithfully(events, before.(active := None, settled := before.settled + [Resolved(before.active.value.id, payload)]), after, link, parse);
  }

  lemma SendsFaithfully(events: seq<BridgeEvent>, before: Traffic, after: Traffic, id: nat, kind: Kind, link: Link,
                        parse: string -> Option<Response>)
    requires Faithful(events, before, parse) && Sends(before, after, id, kind, link)
    ensures Faithful(events, after, parse)
  {
    hide AllAnswered, ChunksHeld, TakesUp, WithoutPreloads, CanceledPreloads, InsertionIndex;
    PreparesFaithfully(events, before, kind, parse);
    var ready := Prepared(before, kind);
    var entered := ready.(queue := Inserted(ready.queue, Request(id, kind, None), ready.port.Some?));
    assert ChunksHeld(events, entered, parse) by { SameHeld(events, ready, entered, parse); }
    if ready.active == None {
      TakesFaithfully(events, entered, after, link, parse);
    }
  }

  lemma SameHeld(events: seq<BridgeEvent>, before: Traffic, after: Traffic, parse: string -> Option<Response>)
    requires ChunksHeld(events, before, parse) && after.active == before.active && after.port == before.port
    ensures ChunksHeld(events, after, parse)
  {
  }

  lemma PreparesFaithfully(events: seq<BridgeEvent>, before: Traffic, kind: Kind, parse: string -> Option<Response>)
    requires Faithful(events, before, parse)
    ensures Faithful(events, Prepared(before, kind), parse)
  {
    hide AllAnswered, WithoutPreloads, CanceledPreloads, Rejections;
    var kept, left := PreloadsLeave(before.queue);
    var canceled := Ids(CanceledPreloads(before.queue));
    RejectionsAnswered(events, before.settled, canceled, parse);
    RejectionsAnswered(events, before.settled + Rejections(canceled), [], parse);
  }

  // ---- Messages ----

  lemma MessageFaithfully(events: seq<BridgeEvent>, event: BridgeEvent, before: Traffic, after: Traffic, parse: string -> Option<Response>)
    requires Faithful(events, before, parse) && event.MessageEvent?
    requires before.port == Some(event.port) && before.active.Some?
    requires MessageEffect(before, after, event.response, parse, event.link)
    ensures Faithful(events + [event], after, parse)
  {
    hide AllAnswered, ChunksHeld, AnswerArrived, Carried, DropsAll, Answers, Holds, Follows, WholeEffect;
    var all, request := events + [event], before.active.value;
    FaithfulMore(events, event, before, parse);
    if DropsAll(before, after) {
      DropsFaithfully(all, before, after, parse);
    } else if event.response.Plain? {
      assert Carried(all, event.port, Event(|events|), event.response, parse) by { CarriedHere(events, event, parse); }
      assert AnswerArrived(all, request.id, event.response.payload, parse) by { ArrivedOn(all, event.port, Event(|events|), event.response, parse); }
      AnswersFaithfully(all, before, after, event.response.payload, event.link, parse);
    } else {
      ChunkFaithfully(events, event, before, after, parse);
    }
  }

  lemma CarriedHere(events: seq<BridgeEvent>, event: BridgeEvent, parse: string -> Option<Response>)
    requires event.MessageEvent?
    ensures Carried(events + [event], event.port, Event(|events|), event.response, parse)
  {
  }

  lemma ArrivedOn(events: seq<BridgeEvent>, port: nat, trail: Trail, answer: Response, parse: string -> Option<Response>)
    requires answer.Plain? && answer.answers.Some? && Carried(events, port, trail, answer, parse)
    ensures AnswerArrived(events, answer.answers.value, answer.payload, parse)
  {
  }

  lemma FaithfulMore(events: seq<BridgeEvent>, event: BridgeEvent, now: Traffic, parse: string -> Option<Response>)
    requires Faithful(events, now, parse)
    ensures Faithful(events + [event], now, parse)
  {
    hide AllAnswered, ChunksHeld;
    AnswersMore(events, event, now.settled, parse);
    HeldMore(events, event, now, parse);
  }

  lemma OneChunkMore(events: seq<BridgeEvent>, event: BridgeEvent, parts: seq<string>, first: Trail, rest: seq<nat>)
    requires event.MessageEvent? && event.response.Chunk? && event.response.index == |parts| && After(first) <= |events|
    requires ChunksArrived(events, event.port, event.response.requestId, event.response.count, parts, rest, After(first))
    ensures ChunksArrived(events + [event], event.port, event.response.requestId, event.response.count,
                          parts + [event.response.data], rest + [|events|], After(first))
  {
    var all, longer := events + [event], rest + [|events|];
    assert all[|events|] == event && Brings(event, event.port, event.response);
    assert forall j :: 0 <= j < |rest| ==> all[rest[j]] == events[rest[j]] && longer[j] == rest[j];
    assert forall j :: 0 <= j < |parts| ==> (parts + [event.response.data])[j] == parts[j];
  }

  /** The chunks held once one more has followed. */
  lemma ChunkArrives(events: seq<BridgeEvent>, event: BridgeEvent, before: Traffic, parse: string -> Option<Response>)
    returns (first: Trail, rest: seq<nat>)
    requires event.MessageEvent? && before.port == Some(event.port) && before.active.Some? && ChunksHeld(events, before, parse)
    requires event.response.Chunk? && event.response.requestId == before.active.value.id
    requires Follows(before.active.value.chunks, event.response.index, event.response.count, event.response.data)
    ensures Held(events + [event], event.port, before.active.value.id, event.response.count,
                 before.active.value.chunks.GetOr(Chunks(0, 0, 0, [])).parts + [event.response.data], first, rest, parse)
  {
    hide Carried;
    var all, request, chunk := events + [event], before.active.value, event.response;
    if chunk.index == 0 {
      first, rest := Event(|events|), [];
      CarriedHere(events, event, parse);
    } else {
      var chunks := request.chunks.value;
      var f: Trail, r: seq<nat> :| Held(events, event.port, request.id, chunks.count, chunks.parts, f, r, parse);
      CarriedMore(events, event, event.port, f, Chunk(request.id, 0, chunks.count, chunks.parts[0]), parse);
      first, rest := f, r + [|events|];
      OneChunkMore(events, event, chunks.parts, f, r);
    }
  }

  lemma ChunkFaithfully(events: seq<BridgeEvent>, event: BridgeEvent, before: Traffic, after: Traffic, parse: string -> Option<Response>)
    requires Faithful(events, before, parse) && Faithful(events + [event], before, parse) && event.MessageEvent?
    requires before.port == Some(event.port) && before.active.Some? && event.response.Chunk? && !DropsAll(before, after)
    requires MessageEffect(before, after, event.response, parse, event.link)
    ensures Faithful(events + [event], after, parse)
  {
    hide AllAnswered, ChunksHeld, Carried, DropsAll, Answers, Holds, Held, AnswerArrived;
    var all, request, chunk := events + [event], before.active.value, event.response;
    var first, rest := ChunkArrives(events, event, before, parse);
    var parts := request.chunks.GetOr(Chunks(0, 0, 0, [])).parts + [chunk.data];
    if |parts| < chunk.count {
      HoldsFaithfully(all, before, after, parts, chunk.count, first, rest, parse);
    } else {
      var trail := Spelled(first, request.id, parts, rest);
      var whole := parse(Joined(parts)).value;
      SpelledCarried(all, event.port, trail, chunk.count, whole, parse);
      if whole.Plain? {
        ArrivedOn(all, event.port, trail, whole, parse);
        AnswersFaithfully(all, before, after, whole.payload, event.link, parse);
      } else {
        HeldFirst(all, event.port, trail, whole, parse);
        HoldsFaithfully(all, before, after, [whole.data], whole.count, trail, [], parse);
      }
    }
  }

  lemma HeldFirst(events: seq<BridgeEvent>, port: nat, trail: Trail, chunk: Response, parse: string -> Option<Response>)
    requires chunk.Chunk? && chunk.index == 0 && Carried(events, port, trail, chunk, parse)
    ensures Held(events, port, chunk.requestId, chunk.count, [chunk.data], trail, [], parse)
  {
    hide Carried;
  }

  lemma SpelledCarried(events: seq<BridgeEvent>, port: nat, trail: Trail, count: int, whole: Response, parse: string -> Option<Response>)
    requires trail.Spelled? && count == |trail.parts| && parse(Joined(trail.parts)) == Some(whole)
    requires Held(events, port, trail.id, count, trail.parts, trail.first, trail.rest, parse)
    ensures Carried(events, port, trail, whole, parse)
  {
  }

  lemma HoldsFaithfully(events: seq<BridgeEvent>, before: Traffic, after: Traffic, parts: seq<string>, count: int,
                        first: Trail, rest: seq<nat>, parse: string -> Option<Response>)
    requires Faithful(events, before, parse) && before.port.Some? && Holds(before, after, parts, count)
    requires Held(events, before.port.value, before.active.value.id, count, parts, first, rest, parse)
    ensures Faithful(events, after, parse)
  {
    hide AllAnswered, Held;
  }

  lemma NothingYet(now: Traffic, parse: string -> Option<Response>)
    requires now == Traffic(None, None, [], [], [])
    ensures Faithful([], now, parse)
  {
  }

  lemma FaithfullyAnswered(events: seq<BridgeEvent>, now: Traffic, parse: string -> Option<Response>)
    requires Faithful(events, now, parse)
    ensures AllAnswered(events, now.settled, parse)
  {
  }

  /** Every event keeps it that resolved requests were answered and held chunks arrived. */
  lemma EventFaithfully(events: seq<BridgeEvent>, event: BridgeEvent, before: Traffic, after: Traffic, id: nat,
                        parse: string -> Option<Response>)
    requires Faithful(events, before, parse) && EventEffect(before, after, event, id, parse)
    ensures Faithful(events + [event], after, parse)
  {
    hide Faithful, MessageEffect, DropsAll, Sends, Prepared;
    var all := events + [event];
    FaithfulMore(events, event, before, parse);
    if event.SendEvent? {
      SendsFaithfully(all, before, after, id, event.kind, event.link, parse);
    } else if event.PrepareEvent? {
      PreparesFaithfully(all, before, event.kind, parse);
    } else if event.MessageEvent? && before.port == Some(event.port) && before.active.Some? {
      MessageFaithfully(events, event, before, after, parse);
    } else if after != before {
      DropsFaithfully(all, before, after, parse);
    }
  }
}
