/** What each event does to the requests of the native messaging bridge, told by the requests alone. */
module NativeTraffic {
  import opened Wrappers
  import opened NativeQueue

  datatype Settlement = Resolved(id: nat, payload: string) | Rejected(id: nat)

  /** A message from the native host. */
  datatype Response =
    | Malformed
    | Chunk(requestId: nat, index: int, count: int, data: string)
    | Plain(answers: Option<nat>, payload: string)

  function Joined(parts: seq<string>): string {
    if parts == [] then "" else Joined(parts[..|parts| - 1]) + parts[|parts| - 1]
  }

  lemma JoinedPush(parts: seq<string>, part: string)
    ensures Joined(parts + [part]) == Joined(parts) + part
  {
    assert (parts + [part])[..|parts|] == parts;
  }

  function SettledIds(settled: seq<Settlement>): seq<nat> {
    seq(|settled|, i requires 0 <= i < |settled| => settled[i].id)
  }

  function Rejections(ids: seq<nat>): seq<Settlement> {
    seq(|ids|, i requires 0 <= i < |ids| => Rejected(ids[i]))
  }

  lemma RejectionsPush(settled: seq<Settlement>, ids: seq<nat>, id: nat)
    ensures settled + Rejections(ids + [id]) == settled + Rejections(ids) + [Rejected(id)]
  {
  }

  lemma RejectionsConcat(settled: seq<Settlement>, a: seq<nat>, b: seq<nat>)
    ensures settled + Rejections(a + b) == settled + Rejections(a) + Rejections(b)
    ensures a == [] ==> Rejections(a) == []
    ensures forall id: nat :: a == [id] ==> Rejections(a) == [Rejected(id)]
  {
  }

  lemma NothingRejected(settled: seq<Settlement>)
    ensures settled + Rejections(Ids([])) == settled
  {
  }

  lemma RejectionsStep(settled: seq<Settlement>, queue: seq<Request>, k: nat)
    requires k < |queue|
    ensures settled + Rejections(Ids(queue[..k + 1])) == settled + Rejections(Ids(queue[..k])) + [Rejected(queue[k].id)]
  {
    assert Ids(queue[..k + 1]) == Ids(queue[..k]) + [queue[k].id];
    RejectionsPush(settled, Ids(queue[..k]), queue[k].id);
  }

  lemma NothingCanceled(queue: seq<Request>, settled: seq<Settlement>)
    ensures queue[|queue|..] == [] && queue == queue[..|queue|] + WithoutPreloads(queue[|queue|..])
    ensures settled + Rejections(Ids(CanceledPreloads(queue[|queue|..]))) == settled
  {
  }

  /** Canceling goes backwards, one request at a time. */
  lemma StillToCancel(before: seq<Request>, queue: seq<Request>, index: nat, settled: seq<Settlement>)
    requires index < |before| && queue == before[..index + 1] + WithoutPreloads(before[index + 1..])
    ensures index < |queue| && queue[index] == before[index]
    ensures before[..index] + WithoutPreloads(before[index..]) ==
      if queue[index].kind == Preload then queue[..index] + queue[index + 1..] else queue
    ensures settled + Rejections(Ids(CanceledPreloads(before[index..]))) ==
      settled + Rejections(Ids(CanceledPreloads(before[index + 1..])))
      + if queue[index].kind == Preload then [Rejected(queue[index].id)] else []
  {
    hide Rejections, Ids, CanceledPreloads;
    var tail := before[index..];
    assert tail[1..] == before[index + 1..] && tail[0] == before[index];
    assert queue[..index] == before[..index] && queue[index + 1..] == WithoutPreloads(tail[1..]);
    CanceledFirst(tail);
    RejectionsPush(settled, Ids(CanceledPreloads(tail[1..])), tail[0].id);
    WithoutFirst(tail);
    if tail[0].kind != Preload {
      assert before[..index] + ([tail[0]] + WithoutPreloads(tail[1..])) == before[..index + 1] + WithoutPreloads(tail[1..]);
    }
  }

  function ActiveIds(active: Option<Request>): seq<nat> {
    if active.Some? then [active.value.id] else []
  }

  /** The port, the requests wherever they are, and everything posted. */
  datatype Traffic = Traffic(
    port: Option<nat>,
    active: Option<Request>,
    queue: seq<Request>,
    settled: seq<Settlement>,
    posted: seq<Request>)

  /** The port is dropped; the active request and everything queued are rejected, in this order. */
  ghost predicate DropsAll(before: Traffic, after: Traffic) {
    after == Traffic(None, None, [], before.settled + Rejections(ActiveIds(before.active) + Ids(before.queue)), before.posted)
  }

  /** Whether a new connection comes about, and whether a port takes what is posted on it. */
  datatype Link = Link(connects: bool, accepts: bool)

  /**
    With nothing active, the first queued request goes out on the port there is,
    or on a new one; without a port, or when the port does not take it, everything
    queued is rejected and the port dropped.
   */
  ghost predicate TakesUp(before: Traffic, after: Traffic, link: Link) {
    if before.queue == [] then after == before
    else
      var first := before.queue[0];
      if before.port.None? && !link.connects then
        after == Traffic(None, None, [], before.settled + Rejections(Ids(before.queue)), before.posted)
      else if !link.accepts then
        after == Traffic(None, None, [], before.settled + Rejections(Ids(before.queue)), before.posted + [first])
      else
        && after.port.Some? && (before.port.Some? ==> after.port == before.port)
        && after == Traffic(after.port, Some(first), before.queue[1..], before.settled, before.posted + [first])
  }

  /** The active request is resolved with the payload, and the next one is taken up. */
  ghost predicate Answers(before: Traffic, after: Traffic, payload: string, link: Link) {
    before.active.Some?
    && TakesUp(before.(active := None, settled := before.settled + [Resolved(before.active.value.id, payload)]), after, link)
  }

  /** The active request keeps the chunks received so far, and nothing else changes. */
  ghost predicate Holds(before: Traffic, after: Traffic, parts: seq<string>, count: int) {
    before.active.Some?
    && after == before.(active := Some(before.active.value.(
         chunks := Some(Chunks(count, |parts|, |Joined(parts)|, parts)))))
  }

  /** The chunk is the next of its sequence, and the characters stay within 64 Mi. */
  ghost predicate Follows(chunks: Option<Chunks>, index: int, count: int, data: string) {
    && 2 <= count <= 256 && 0 <= index < count
    && (if index == 0 then chunks == None && |data| <= 64 * 1024 * 1024
        else
          && chunks.Some? && chunks.value.count == count && |chunks.value.parts| == index
          && |Joined(chunks.value.parts)| + |data| <= 64 * 1024 * 1024)
  }

  ghost predicate AnswerEffect(before: Traffic, after: Traffic, named: bool, payload: string, link: Link) {
    if named then Answers(before, after, payload, link) else DropsAll(before, after)
  }

  /** What a message does to the active request. */
  ghost predicate MessageEffect(before: Traffic, after: Traffic, response: Response, parse: string -> Option<Response>, link: Link)
    requires before.active.Some?
  {
    var request := before.active.value;
    match response
    case Malformed => DropsAll(before, after)
    case Plain(answers, payload) =>
      AnswerEffect(before, after, request.chunks == None && answers == Some(request.id), payload, link)
    case Chunk(id, index, count, data) =>
      if id != request.id || !Follows(request.chunks, index, count, data) then DropsAll(before, after)
      else
        var parts := request.chunks.GetOr(Chunks(0, 0, 0, [])).parts + [data];
        if |parts| < count then Holds(before, after, parts, count)
        else WholeEffect(before, after, parse(Joined(parts)), link)
  }

  /** What a message assembled from chunks does. */
  ghost predicate WholeEffect(before: Traffic, after: Traffic, whole: Option<Response>, link: Link)
    requires before.active.Some?
  {
    var request := before.active.value;
    match whole
    case None => DropsAll(before, after)
    case Some(Malformed) => DropsAll(before, after)
    case Some(Plain(answers, payload)) => AnswerEffect(before, after, answers == Some(request.id), payload, link)
    case Some(Chunk(id, index, count, data)) =>
      if id == request.id && Follows(None, index, count, data) then Holds(before, after, [data], count)
      else DropsAll(before, after)
  }

  lemma DropsRegardless(before: Traffic, after: Traffic)
    requires before.active.Some?
    requires DropsAll(before.(active := Some(before.active.value.(chunks := None))), after)
    ensures DropsAll(before, after)
  {
    assert ActiveIds(Some(before.active.value.(chunks := None))) == ActiveIds(before.active);
  }

  /** The chunks received so far do not matter to what an assembled message does. */
  lemma EffectOfWhole(before: Traffic, after: Traffic, whole: Response, parse: string -> Option<Response>, link: Link)
    requires before.active.Some?
    requires MessageEffect(before.(active := Some(before.active.value.(chunks := None))), after, whole, parse, link)
    ensures WholeEffect(before, after, Some(whole), link)
  {
    hide TakesUp;
    assert ActiveIds(Some(before.active.value.(chunks := None))) == ActiveIds(before.active);
  }

  /** The requests once a command of this kind is to be sent: a startup command cancels the preloads, the last one first. */
  ghost function Prepared(before: Traffic, next: Kind): Traffic {
    if next != Startup then before
    else
      var rest := before.(queue := WithoutPreloads(before.queue),
                          settled := before.settled + Rejections(Ids(CanceledPreloads(before.queue))));
      if before.active.Some? && before.active.value.kind == Preload then
        rest.(port := None, active := None, settled := rest.settled + [Rejected(before.active.value.id)])
      else rest
  }

  /** The new request finds its place in the queue, and is taken up when nothing is under way. */
  ghost predicate Sends(before: Traffic, after: Traffic, id: nat, kind: Kind, link: Link) {
    var ready := Prepared(before, kind);
    var entered := ready.(queue := Inserted(ready.queue, Request(id, kind, None), ready.port.Some?));
    if ready.active.Some? then after == entered else TakesUp(entered, after, link)
  }

  datatype BridgeEvent =
    | SendEvent(kind: Kind, link: Link)
    | PrepareEvent(kind: Kind)
    | MessageEvent(port: nat, response: Response, link: Link)
    | DisconnectEvent(port: nat)
    | TimeoutEvent(requestId: nat, port: nat)

  /** What an event does; `id` numbers the request of a send. */
  ghost predicate EventEffect(before: Traffic, after: Traffic, event: BridgeEvent, id: nat, parse: string -> Option<Response>) {
    match event
    case SendEvent(kind, link) => Sends(before, after, id, kind, link)
    case PrepareEvent(kind) => after == Prepared(before, kind)
    case MessageEvent(port, response, link) =>
      if before.port == Some(port) && before.active.Some? then MessageEffect(before, after, response, parse, link)
      else after == before
    case DisconnectEvent(port) =>
      if before.port == Some(port) then DropsAll(before, after) else after == before
    case TimeoutEvent(requestId, port) =>
      if before.port == Some(port) && before.active.Some? && before.active.value.id == requestId then DropsAll(before, after)
      else after == before
  }

  lemma DropsOnlyAdd(before: Traffic, after: Traffic)
    requires DropsAll(before, after)
    ensures before.settled <= after.settled && before.posted <= after.posted
  {
    hide Rejections;
  }

  lemma TakesOnlyAdd(before: Traffic, after: Traffic, link: Link)
    requires TakesUp(before, after, link)
    ensures before.settled <= after.settled && before.posted <= after.posted
  {
    hide Rejections;
  }

  lemma AnswersOnlyAdd(before: Traffic, after: Traffic, payload: string, link: Link)
    requires Answers(before, after, payload, link)
    ensures before.settled <= after.settled && before.posted <= after.posted
  {
    hide TakesUp;
    TakesOnlyAdd(before.(active := None, settled := before.settled + [Resolved(before.active.value.id, payload)]), after, link);
  }

  lemma PreparesOnlyAdd(before: Traffic, next: Kind)
    ensures before.settled <= Prepared(before, next).settled && Prepared(before, next).posted == before.posted
  {
    hide Rejections, WithoutPreloads, CanceledPreloads;
  }

  lemma SendsOnlyAdd(before: Traffic, after: Traffic, id: nat, kind: Kind, link: Link)
    requires Sends(before, after, id, kind, link)
    ensures before.settled <= after.settled && before.posted <= after.posted
  {
    hide TakesUp, Prepared, Inserted;
    PreparesOnlyAdd(before, kind);
    var ready := Prepared(before, kind);
    if ready.active.None? {
      TakesOnlyAdd(ready.(queue := Inserted(ready.queue, Request(id, kind, None), ready.port.Some?)), after, link);
    }
  }

  lemma MessageOnlyAdds(before: Traffic, after: Traffic, response: Response, parse: string -> Option<Response>, link: Link)
    requires before.active.Some? && MessageEffect(before, after, response, parse, link)
    ensures before.settled <= after.settled && before.posted <= after.posted
  {
    hide DropsAll, Answers, Follows;
    if DropsAll(before, after) {
      DropsOnlyAdd(before, after);
    } else if response.Plain? {
      AnswersOnlyAdd(before, after, response.payload, link);
    } else {
      var parts := before.active.value.chunks.GetOr(Chunks(0, 0, 0, [])).parts + [response.data];
      var whole := parse(Joined(parts));
      if |parts| >= response.count && whole.Some? && whole.value.Plain? {
        AnswersOnlyAdd(before, after, whole.value.payload, link);
      }
    }
  }

  /** No event unsettles a request or unposts a command. */
  lemma EventsOnlyAdd(before: Traffic, after: Traffic, event: BridgeEvent, id: nat, parse: string -> Option<Response>)
    requires EventEffect(before, after, event, id, parse)
    ensures before.settled <= after.settled && before.posted <= after.posted
  {
    hide DropsAll, Sends, Prepared, MessageEffect;
    match event
    case SendEvent(kind, link) => SendsOnlyAdd(before, after, id, kind, link);
    case PrepareEvent(kind) => PreparesOnlyAdd(before, kind);
    case MessageEvent(port, response, link) =>
      if before.port == Some(port) && before.active.Some? {
        MessageOnlyAdds(before, after, response, parse, link);
      }
    case _ =>
      if after != before {
        DropsOnlyAdd(before, after);
      }
  }
}
