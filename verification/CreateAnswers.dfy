/** How often a create request is answered, and when a further handler can take it on. */
module CreateAnswers {
  import opened Wrappers
  import opened CeremonySearch
  import opened CeremonyTable
  import opened NativeCeremony
  import opened CreateLedger
  import opened CreateSafety

  // ---- Counting answers ----

  /** The handlers that take the request on: those that began, less a first handler that parked it. */
  function Takers(trace: seq<Event>): int {
    if trace == [] then 0
    else
      Takers(trace[..|trace| - 1]) +
      match trace[|trace| - 1]
      case Began(role) => if role.Recovering? then 0 else 1
      case Ended(_, parked) => if parked then -1 else 0
      case _ => 0
  }

  function Answers(trace: seq<Event>): nat {
    if trace == [] then 0
    else Answers(trace[..|trace| - 1]) + if trace[|trace| - 1].Completed? then 1 else 0
  }

  predicate Owes(p: Party) {
    Serves(p) && !p.answered && !p.ended
  }

  function Owing(parties: seq<Party>): nat {
    if parties == [] then 0
    else Owing(parties[..|parties| - 1]) + if Owes(parties[|parties| - 1]) then 1 else 0
  }

  lemma {:induction false} OwingUpdate(parties: seq<Party>, i: nat, p: Party)
    requires i < |parties|
    ensures Owing(parties[i := p]) + (if Owes(parties[i]) then 1 else 0) == Owing(parties) + if Owes(p) then 1 else 0
  {
    hide Owes;
    var last := |parties| - 1;
    if i < last {
      assert parties[i := p][..last] == parties[..last][i := p];
      OwingUpdate(parties[..last], i, p);
    } else {
      assert parties[i := p][..last] == parties[..last];
    }
  }

  lemma OwingPush(parties: seq<Party>, p: Party)
    ensures Owing(parties + [p]) == Owing(parties) + if Owes(p) then 1 else 0
  {
    assert (parties + [p])[..|parties|] == parties;
  }

  lemma OwingStep(s: State, e: Event)
    requires Allowed(s, e)
    ensures Owing(Next(s, e).parties) + Next(s, e).silent + (if e.Completed? then 1 else 0)
         == Owing(s.parties) + s.silent
            + if e.Began? && !e.role.Recovering? then 1 else if e.Ended? && e.parked then -1 else 0
  {
    hide Owing, MaySend, MayReply, Answering;
    var t := Next(s, e);
    match e
    case Began(role) => OwingPush(s.parties, Newcomer(role));
    case Called(who, command, fate, acked) =>
      OwingUpdate(s.parties, who, t.parties[who]);
    case Looked(who) => OwingUpdate(s.parties, who, t.parties[who]);
    case Noticed(who) => OwingUpdate(s.parties, who, t.parties[who]);
    case Completed(who, _, _) => OwingUpdate(s.parties, who, t.parties[who]);
    case Ended(who, _) => OwingUpdate(s.parties, who, t.parties[who]);
    case _ =>
  }

  /** Every handler that took the request on has answered, fell silent on a cancellation, or still owes an answer. */
  lemma {:induction false} TakersAnswer(trace: seq<Event>)
    requires Safe(trace)
    ensures Takers(trace) == Answers(trace) + Run(trace).silent + Owing(Run(trace).parties)
  {
    if trace != [] {
      LastStep(trace);
      TakersAnswer(trace[..|trace| - 1]);
      OwingStep(Run(trace[..|trace| - 1]), trace[|trace| - 1]);
      hide Run, Safe, Owing, Next, Allowed;
    }
  }

  predicate Settled(s: State) {
    forall i :: 0 <= i < |s.parties| ==> s.parties[i].ended || !Serves(s.parties[i])
  }

  lemma {:induction false} NobodyOwes(parties: seq<Party>)
    requires forall i :: 0 <= i < |parties| ==> parties[i].ended || !Serves(parties[i])
    ensures Owing(parties) == 0
  {
    if parties != [] {
      NobodyOwes(parties[..|parties| - 1]);
    }
  }

  /** Once every handler has ended, the answers are as many as the handlers that took the request on, silent ones aside. */
  lemma AnsweredExactly(trace: seq<Event>)
    requires Safe(trace) && Settled(Run(trace))
    ensures Answers(trace) + Run(trace).silent == Takers(trace)
  {
    TakersAnswer(trace);
    NobodyOwes(Run(trace).parties);
  }

  ghost predicate NeverCanceled(trace: seq<Event>) {
    forall i :: 0 <= i < |trace| ==> !trace[i].Canceled?
  }

  lemma {:induction false} OnlyCancellationSilences(trace: seq<Event>)
    requires Safe(trace) && NeverCanceled(trace)
    ensures Run(trace).silent == 0 && !Run(trace).canceled
    ensures forall i :: 0 <= i < |Run(trace).parties| ==> !Run(trace).parties[i].noticed
  {
    if trace != [] {
      var init := trace[..|trace| - 1];
      LastStep(trace);
      OnlyCancellationSilences(init);
      assert !trace[|trace| - 1].Canceled?;
      hide Run, Safe, Answering, MaySend, MayReply;
      UnnoticedStep(Run(init), trace[|trace| - 1]);
    }
  }

  lemma UnnoticedStep(s: State, e: Event)
    requires Allowed(s, e) && !e.Canceled? && !s.canceled && s.silent == 0
    requires forall i :: 0 <= i < |s.parties| ==> !s.parties[i].noticed
    ensures Next(s, e).silent == 0 && !Next(s, e).canceled
    ensures forall i :: 0 <= i < |Next(s, e).parties| ==> !Next(s, e).parties[i].noticed
  {
    hide Answering, MaySend, MayReply;
  }

  /**
    The request is answered, or silenced, at most once exactly when at most one
    handler took it on: the first, unless it parked, or one that found the mirror
    parked. Where nobody cancels, nothing is silenced.
   */
  lemma AnsweredOnceExactly(trace: seq<Event>)
    requires Safe(trace) && Settled(Run(trace))
    ensures Answers(trace) + Run(trace).silent <= 1 <==> Takers(trace) <= 1
    ensures NeverCanceled(trace) ==> (Answers(trace) <= 1 <==> Takers(trace) <= 1)
  {
    AnsweredExactly(trace);
    if NeverCanceled(trace) {
      OnlyCancellationSilences(trace);
    }
  }

  /** Of all answers at most one holds a credential. */
  lemma OneCredential(trace: seq<Event>, i: nat, j: nat)
    requires Safe(trace) && i < j < |trace|
    requires trace[i].Completed? && trace[i].withCredential
    ensures !(trace[j].Completed? && trace[j].withCredential)
  {
    if trace[j].Completed? && trace[j].withCredential {
      Deliverer(trace, i);
      Deliverer(trace, j);
      OneGoesOn(trace, trace[i].who, trace[j].who);
      AnswersOnce(trace, i, j);
    }
  }

  lemma Deliverer(trace: seq<Event>, i: nat)
    requires Safe(trace) && i < |trace| && trace[i].Completed? && trace[i].withCredential
    ensures trace[i].who < |Run(trace).parties| && Run(trace).parties[trace[i].who].left
  {
    StepAt(trace, i);
    RunGrows(trace, i);
    EveryRunIsInStep(trace[..i]);
    hide Run, Safe;
    var s := Run(trace[..i]);
    assert InStep(s.parties[trace[i].who], s.native);
    Growth(s, Run(trace), trace[i].who);
  }

  /** No handler answers twice. */
  lemma AnswersOnce(trace: seq<Event>, i: nat, j: nat)
    requires Safe(trace) && i < j < |trace| && trace[i].Completed? && trace[j].Completed?
    ensures trace[i].who != trace[j].who
  {
    StepAt(trace, i);
    StepAt(trace, j);
    SafePrefix(trace, j);
    RunGrows(trace[..j], i + 1);
    assert trace[..j][..i + 1] == trace[..i + 1];
    hide Run, Safe, MaySend, MayReply;
    Growth(Run(trace[..i + 1]), Run(trace[..j]), trace[i].who);
  }

  // ---- When a further handler can begin ----

  /** The mirror is not parked, and nobody is left who could store the parked one again. */
  predicate Shut(s: State) {
    && !s.mirrorParked && s.parties != []
    && forall i :: 0 <= i < |s.parties| ==> !Serves(s.parties[i]) || s.parties[i].left || s.parties[i].ended
  }

  lemma StepStaysShut(s: State, e: Event)
    requires Shut(s) && Allowed(s, e)
    ensures Shut(Next(s, e)) && (e.Began? ==> e.role.Recovering?)
  {
    hide Answering, MaySend, MayReply, Heard;
    StepOutgrows(s, e);
  }

  /** Once the mirror is no longer parked and every handler has gone on or ended, none begins any more. */
  lemma {:induction false} NoneBeginsLater(trace: seq<Event>, n: nat, i: nat)
    requires Safe(trace) && n <= i < |trace| && Shut(Run(trace[..n]))
    ensures Shut(Run(trace)) && (trace[i].Began? ==> trace[i].role.Recovering?)
    decreases |trace|
  {
    var init := trace[..|trace| - 1];
    LastStep(trace);
    if n < |init| {
      assert init[..n] == trace[..n];
      NoneBeginsLater(init, n, if i < |init| then i else n);
      assert i < |init| ==> init[i] == trace[i];
    } else {
      assert init == trace[..n];
    }
    hide Run, Safe;
    StepStaysShut(Run(init), trace[|trace| - 1]);
  }
}
