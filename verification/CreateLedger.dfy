/**
  One create request, served by any number of parties at once: the first handler,
  the handlers that resume it after a prompt, and recovery, which looks after
  ceremonies that seem abandoned. A trace lists their events in the order they
  happen, each at the native ceremony, the session mirror or the browser.
 */
module CreateLedger {
  import opened Wrappers
  import opened CeremonySearch
  import opened NativeCeremony

  datatype Role = First | Resuming | Recovering

  /** What one party has been told, and what it has done; `clear` when it last found the request not canceled. */
  datatype Party = Party(
    role: Role,
    saw: Option<Ceremony>,
    left: bool,
    entered: bool,
    created: bool,
    saved: bool,
    committed: bool,
    gaveUp: bool,
    aborted: bool,
    noticed: bool,
    answered: bool,
    clear: bool,
    ended: bool)

  /** The mirror is parked while it holds a ceremony in user authorization whose prompt is open. */
  datatype State = State(native: Ceremony, mirrorParked: bool, canceled: bool, parties: seq<Party>, silent: nat)

  const START := State(UNREGISTERED, false, false, [], 0)

  datatype Event =
    | Began(role: Role)
    | Called(who: nat, command: Command, fate: Fate, acked: bool)
    | Stored(who: nat, parked: bool)
    | Looked(who: nat)
    | Noticed(who: nat)
    | Completed(who: nat, withCredential: bool, accepted: bool)
    | Ended(who: nat, parked: bool)
    | Canceled

  function Newcomer(role: Role): Party {
    Party(role, None, false, false, false, false, false, false, false, false, false, false, false)
  }

  /** A party after sending a command, acknowledged or not. */
  function Heard(p: Party, native: Ceremony, command: Command, acked: bool): Party {
    p.(saw := if acked && command.Query? then Some(native) else p.saw,
       left := p.left || (acked && command.Advance? && command.from != PreAuthorization),
       entered := p.entered || (acked && command.Advance? && command.to == CompletionAndMutation),
       created := p.created || (acked && command.Create?),
       saved := p.saved || (acked && command.Save?),
       committed := p.committed || (acked && command.Commit?),
       aborted := p.aborted || (acked && command.Abort?),
       gaveUp := p.gaveUp || command.Abort? || command.Close?,
       clear := false)
  }

  predicate Live(s: State, who: nat) {
    who < |s.parties| && !s.parties[who].ended
  }

  predicate Serves(p: Party) {
    !p.role.Recovering?
  }

  function WithParty(s: State, who: nat, p: Party): State
    requires who < |s.parties|
  {
    s.(parties := s.parties[who := p])
  }

  function Next(s: State, e: Event): State {
    match e
    case Began(role) => s.(parties := s.parties + [Newcomer(role)])
    case Called(who, command, fate, acked) =>
      if who >= |s.parties| then s
      else WithParty(s, who, Heard(s.parties[who], s.native, command, acked))
           .(native := Answering(s.native, command, fate))
    case Stored(_, parked) => s.(mirrorParked := parked)
    case Looked(who) => if who >= |s.parties| then s else WithParty(s, who, s.parties[who].(clear := true))
    case Noticed(who) => if who >= |s.parties| then s else WithParty(s, who, s.parties[who].(noticed := true, clear := false))
    case Completed(who, _, _) => if who >= |s.parties| then s else WithParty(s, who, s.parties[who].(answered := true))
    case Ended(who, parked) =>
      if who >= |s.parties| then s
      else
        var p := s.parties[who];
        WithParty(s, who, p.(ended := true))
          .(canceled := s.canceled && !p.role.First?,
            silent := s.silent + if Serves(p) && !p.answered && !parked then 1 else 0)
    case Canceled => s.(canceled := true)
  }

  /**
    What a party sends, by what it was told: each step in its turn, nothing more
    once it gave up, and the steps that matter to the user only right after
    finding that the request is not canceled.
   */
  predicate MaySend(p: Party, command: Command) {
    match command
    case Register => p.role.First? && !p.left
    case Advance(from, to) =>
      && Serves(p) && !p.gaveUp && !p.entered
      && (from == PreAuthorization ==> p.role.First?)
      && (from == PreAuthorization || from == UserAuthorization <==> !p.left)
      && ((p.role.First? && !p.left) || to == CompletionAndMutation ==> p.clear)
    case Close(from, _) =>
      if Serves(p) then
        && !p.committed && (from == CompletionAndMutation ==> p.entered)
        && (from == PreAuthorization || from == UserAuthorization || p.left)
      else p.saw.Some? && p.saw.value.position == In(from) && from != CompletionAndMutation
    case Create => p.entered && !p.created && !p.gaveUp
    case Save => p.created && !p.saved && !p.gaveUp && p.clear
    case Commit => p.saved && !p.committed && !p.gaveUp && p.clear
    case Abort(_) =>
      if Serves(p) then p.entered && !p.committed && !p.aborted
      else p.saw.Some? && AtCompletion(p.saw.value) && !p.saw.value.durable.Committed?
    case MarkDelivered => p.committed
    case MarkUnknownDelivery =>
      if Serves(p) then p.committed
      else p.saw.Some? && AtCompletion(p.saw.value) && p.saw.value.durable.Committed?
    case ReadExcluded => Serves(p) && p.clear
    case Query => !Serves(p)
    case Sweep => !Serves(p)
    case _ => Serves(p)
  }

  /**
    A resuming handler starts only from a parked mirror; the parked mirror is
    stored only by a handler that has not left user authorization. A handler
    answers at most once, and delivers only what it was told is committed; it
    ends without an answer only when parked for a prompt or on noticing that the
    request was canceled.
   */
  predicate Allowed(s: State, e: Event) {
    match e
    case Began(role) => (role.First? ==> s.parties == []) && (role.Resuming? ==> s.mirrorParked)
    case Called(who, command, fate, acked) =>
      Live(s, who) && MaySend(s.parties[who], command) && MayReply(s.native, command, fate, acked)
    case Stored(who, parked) => Live(s, who) && (parked ==> Serves(s.parties[who]) && !s.parties[who].left)
    case Looked(who) => Live(s, who) && !s.canceled
    case Noticed(who) => Live(s, who) && s.canceled
    case Completed(who, withCredential, _) =>
      && Live(s, who) && Serves(s.parties[who]) && !s.parties[who].answered
      && (withCredential ==> s.parties[who].committed && s.parties[who].clear)
    case Ended(who, parked) =>
      && Live(s, who)
      && var p := s.parties[who];
         if parked then p.role.First? && !p.answered && !p.left
         else p.answered || !Serves(p) || (p.noticed && (p.role.Resuming? ==> p.created))
    case Canceled => true
  }

  function Run(trace: seq<Event>): State {
    if trace == [] then START else Next(Run(trace[..|trace| - 1]), trace[|trace| - 1])
  }

  predicate Safe(trace: seq<Event>) {
    trace == []
    || (Safe(trace[..|trace| - 1]) && Allowed(Run(trace[..|trace| - 1]), trace[|trace| - 1]))
  }

  lemma Push(trace: seq<Event>, e: Event)
    ensures Run(trace + [e]) == Next(Run(trace), e)
    ensures Safe(trace + [e]) <==> Safe(trace) && Allowed(Run(trace), e)
  {
    assert (trace + [e])[..|trace|] == trace;
  }

  lemma {:induction false} SafePrefix(trace: seq<Event>, n: nat)
    requires Safe(trace) && n <= |trace|
    ensures Safe(trace[..n])
    decreases |trace|
  {
    if n < |trace| {
      SafePrefix(trace[..|trace| - 1], n);
      assert trace[..|trace| - 1][..n] == trace[..n];
    } else {
      assert trace[..n] == trace;
    }
  }

  // ---- What every run keeps ----

  /** What a party was told agrees with the native ceremony, rollbacks aside. */
  predicate InStep(p: Party, c: Ceremony) {
    && (p.left ==> Serves(p) && PastAuthorization(c))
    && (p.entered ==> p.left && CompletedOrClosed(c))
    && (p.created ==> p.entered) && (p.saved ==> p.created)
    && (p.committed ==> p.saved && !p.gaveUp)
    && (p.created && AtCompletion(c) ==> !c.durable.Nothing? && !c.durable.Snapshot?)
    && (p.saved && AtCompletion(c) ==> c.durable.Saved? || c.durable.Committed?)
    && (p.entered && !p.gaveUp && IsClosed(c) ==> c.durable.Committed? || c.rolledBack)
    && (p.committed ==> c.durable.Committed? || c.rolledBack)
  }

  ghost predicate Inv(s: State) {
    && Fits(s.native)
    && (forall i :: 0 <= i < |s.parties| ==> InStep(s.parties[i], s.native))
    && (forall i, j :: 0 <= i < j < |s.parties| ==> !(s.parties[i].left && s.parties[j].left))
  }

  lemma SenderStaysInStep(p: Party, c: Ceremony, command: Command, fate: Fate, acked: bool)
    requires Fits(c) && InStep(p, c) && MaySend(p, command) && MayReply(c, command, fate, acked)
    ensures InStep(Heard(p, c, command, acked), Answering(c, command, fate))
  {
    CommandKeeps(c, command, fate, acked);
  }

  /** Once one party has left user authorization, what another sends can only roll the ceremony back. */
  lemma OthersStayInStep(p: Party, q: Party, c: Ceremony, command: Command, fate: Fate, acked: bool)
    requires Fits(c) && InStep(p, c) && InStep(q, c) && !(p.left && q.left)
    requires MaySend(p, command) && MayReply(c, command, fate, acked)
    ensures InStep(q, Answering(c, command, fate))
    ensures !(Heard(p, c, command, acked).left && q.left)
  {
    CommandKeeps(c, command, fate, acked);
  }

  lemma CallKeepsInv(s: State, who: nat, command: Command, fate: Fate, acked: bool)
    requires Inv(s) && Allowed(s, Called(who, command, fate, acked))
    ensures Inv(Next(s, Called(who, command, fate, acked)))
  {
    hide InStep, MaySend, MayReply, Fits, Answering, Heard;
    var t := Next(s, Called(who, command, fate, acked));
    var p := s.parties[who];
    CommandKeeps(s.native, command, fate, acked);
    SenderStaysInStep(p, s.native, command, fate, acked);
    forall i | 0 <= i < |s.parties| && i != who
      ensures InStep(t.parties[i], t.native) && !(t.parties[who].left && t.parties[i].left)
    {
      assert !(p.left && s.parties[i].left) by {
        assert !(s.parties[if i < who then i else who].left && s.parties[if i < who then who else i].left);
      }
      OthersStayInStep(p, s.parties[i], s.native, command, fate, acked);
    }
  }

  lemma StepKeepsInv(s: State, e: Event)
    requires Inv(s) && Allowed(s, e)
    ensures Inv(Next(s, e))
  {
    hide Inv, Next, Allowed;
    if e.Called? {
      CallKeepsInv(s, e.who, e.command, e.fate, e.acked);
    } else if e.Began? {
      BeginKeepsInv(s, e.role);
    } else {
      OthersKeepInv(s, e);
    }
  }

  lemma BeginKeepsInv(s: State, role: Role)
    requires Inv(s)
    ensures Inv(Next(s, Began(role)))
  {
    hide InStep, Fits;
    NewcomerInStep(role, s.native);
  }

  lemma OthersKeepInv(s: State, e: Event)
    requires Inv(s) && Allowed(s, e) && !e.Called? && !e.Began?
    ensures Inv(Next(s, e))
  {
    hide InStep, MaySend, MayReply, Fits, Answering, Heard;
    var t := Next(s, e);
    OnlyFlags(s, e);
    forall i | 0 <= i < |s.parties| ensures InStep(t.parties[i], t.native) && t.parties[i].left == s.parties[i].left {
      SameStep(s.parties[i], t.parties[i], s.native);
    }
  }

  /** Other events leave the native ceremony, and change of a party only what it found, answered and whether it ended. */
  lemma OnlyFlags(s: State, e: Event)
    requires Allowed(s, e) && !e.Called? && !e.Began?
    ensures Next(s, e).native == s.native && |Next(s, e).parties| == |s.parties|
    ensures forall i :: 0 <= i < |s.parties| ==> OnlyFlagged(s.parties[i], Next(s, e).parties[i])
  {
    hide MaySend, MayReply, Answering, Heard;
  }

  ghost predicate OnlyFlagged(p: Party, q: Party) {
    q == p.(noticed := q.noticed, answered := q.answered, clear := q.clear, ended := q.ended)
  }

  lemma NewcomerInStep(role: Role, c: Ceremony)
    ensures InStep(Newcomer(role), c) && !Newcomer(role).left
  {
  }

  lemma SameStep(p: Party, q: Party, c: Ceremony)
    requires InStep(p, c) && q == p.(noticed := q.noticed, answered := q.answered, clear := q.clear, ended := q.ended)
    ensures InStep(q, c)
  {
  }

  lemma {:induction false} EveryRunIsInStep(trace: seq<Event>)
    requires Safe(trace)
    ensures Inv(Run(trace))
  {
    if trace != [] {
      var init := trace[..|trace| - 1];
      EveryRunIsInStep(init);
      StepKeepsInv(Run(init), trace[|trace| - 1]);
    }
  }

  // ---- What later events leave as it is ----

  /** What was established stays established. */
  ghost predicate Grows(s: State, t: State) {
    && |s.parties| <= |t.parties|
    && (s.native.durable.Committed? ==> t.native.durable.Committed?)
    && (s.native.rolledBack ==> t.native.rolledBack)
    && forall i :: 0 <= i < |s.parties| ==> Outgrows(s.parties[i], t.parties[i])
  }

  predicate Outgrows(p: Party, q: Party) {
    && q.role == p.role
    && (p.left ==> q.left) && (p.entered ==> q.entered) && (p.created ==> q.created) && (p.saved ==> q.saved)
    && (p.committed ==> q.committed) && (p.aborted ==> q.aborted) && (p.gaveUp ==> q.gaveUp)
    && (p.noticed ==> q.noticed) && (p.answered ==> q.answered) && (p.ended ==> q.ended)
  }

  lemma HeardOutgrows(p: Party, c: Ceremony, command: Command, acked: bool)
    ensures Outgrows(p, Heard(p, c, command, acked))
  {
  }

  lemma StepOutgrows(s: State, e: Event)
    requires Allowed(s, e)
    ensures |s.parties| <= |Next(s, e).parties|
    ensures forall i :: 0 <= i < |s.parties| ==> Outgrows(s.parties[i], Next(s, e).parties[i])
  {
    hide MaySend, MayReply, Answering, Heard;
    if e.Called? {
      hide Outgrows;
      HeardOutgrows(s.parties[e.who], s.native, e.command, e.acked);
      AllOutgrowThemselves(s);
    }
  }

  lemma StepGrows(s: State, e: Event)
    requires Inv(s) && Allowed(s, e)
    ensures Grows(s, Next(s, e))
  {
    hide InStep, MaySend, MayReply, Fits, Answering, Heard, Outgrows;
    StepOutgrows(s, e);
    if e.Called? {
      CommandKeeps(s.native, e.command, e.fate, e.acked);
    }
  }

  lemma AllOutgrowThemselves(s: State)
    ensures forall i :: 0 <= i < |s.parties| ==> Outgrows(s.parties[i], s.parties[i])
  {
  }

  lemma {:induction false} RunGrows(trace: seq<Event>, n: nat)
    requires Safe(trace) && n <= |trace|
    ensures Grows(Run(trace[..n]), Run(trace))
    decreases |trace|
  {
    if n == |trace| {
      assert trace[..n] == trace;
    } else {
      var init := trace[..|trace| - 1];
      assert init[..n] == trace[..n];
      RunGrows(init, n);
      EveryRunIsInStep(init);
      hide Inv, Allowed;
      StepGrows(Run(init), trace[|trace| - 1]);
    }
  }
}
