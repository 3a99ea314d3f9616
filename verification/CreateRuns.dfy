/** Runs that show where the guarantees of a create request end. */
module CreateRuns {
  import opened Wrappers
  import opened CeremonySearch
  import opened CeremonyTable
  import opened NativeCeremony
  import opened CreateLedger
  import opened CreateSafety
  import opened CreateAnswers

  // ---- Pieces of runs ----

  /** The first handler parks the request for a prompt. */
  const PARKING: seq<Event> := [
    Began(First),
    Called(0, Register, Done, true),
    Looked(0),
    Called(0, Advance(PreAuthorization, UserAuthorization), Done, true),
    Stored(0, true),
    Ended(0, true)]

  /** A resuming handler's advance is lost, and so is its close: it answers with an error and leaves the mirror parked. */
  function Failing(who: nat): seq<Event> {
    [Called(who, Advance(UserAuthorization, CredentialResolution), Lost, false),
     Called(who, Close(UserAuthorization, Failed), Lost, false),
     Completed(who, false, true),
     Ended(who, false)]
  }

  /** A resuming handler gets past user authorization. */
  function Going(who: nat): seq<Event> {
    [Called(who, Advance(UserAuthorization, CredentialResolution), Done, true),
     Stored(who, false)]
  }

  function Saving(who: nat): seq<Event> {
    [Looked(who),
     Called(who, Advance(CredentialResolution, CompletionAndMutation), Done, true),
     Called(who, Create, Done, true),
     Looked(who),
     Called(who, Save, Done, true)]
  }

  function Delivering(who: nat): seq<Event> {
    [Looked(who),
     Called(who, Commit, Done, true),
     Looked(who),
     Completed(who, true, true),
     Ended(who, false)]
  }

  /** Recovery finds the ceremony uncommitted in its completion phase, and aborts it. */
  function Recovery(who: nat): seq<Event> {
    [Called(who, Query, Done, true),
     Called(who, Abort(Failed), Done, true)]
  }

  /** The state after one more event, and that it is reached. */
  lemma Then(trace: seq<Event>, s: State, e: Event) returns (longer: seq<Event>, t: State)
    requires Safe(trace) && Run(trace) == s && Allowed(s, e)
    ensures longer == trace + [e] && t == Next(s, e)
    ensures Safe(longer) && Run(longer) == t
  {
    Push(trace, e);
    longer, t := trace + [e], Next(s, e);
  }

  /** The run has reached `s` with one party and the native ceremony moved on. */
  ghost predicate Reaches(trace: seq<Event>, s: State, who: nat, p: Party, c: Ceremony) {
    Safe(trace) && who < |s.parties| && Run(trace) == WithParty(s, who, p).(native := c)
  }

  lemma ReachesItself(trace: seq<Event>, who: nat)
    requires Safe(trace) && who < |Run(trace).parties|
    ensures Reaches(trace, Run(trace), who, Run(trace).parties[who], Run(trace).native)
  {
  }

  /** A command that is carried out and acknowledged. */
  lemma Calls(trace: seq<Event>, s: State, who: nat, command: Command, p: Party, c: Ceremony)
    requires Reaches(trace, s, who, p, c) && !p.ended && MaySend(p, command) && Accepts(c, command)
    ensures Reaches(trace + [Called(who, command, Done, true)], s, who, Heard(p, c, command, true), After(c, command))
  {
    hide Run, Safe, MaySend, Accepts, After, Heard;
    Push(trace, Called(who, command, Done, true));
    var q := Heard(p, c, command, true);
    assert WithParty(s, who, p).parties[who := q] == s.parties[who := q];
  }

  /** Finding the request not canceled. */
  lemma Looks(trace: seq<Event>, s: State, who: nat, p: Party, c: Ceremony)
    requires Reaches(trace, s, who, p, c) && !p.ended && !s.canceled
    ensures Reaches(trace + [Looked(who)], s, who, p.(clear := true), c)
  {
    hide Run, Safe, MaySend, Answering, Heard;
    Push(trace, Looked(who));
    assert WithParty(s, who, p).parties[who := p.(clear := true)] == s.parties[who := p.(clear := true)];
  }

  const AUTHORIZING := Ceremony(In(UserAuthorization), Nothing, false)
  const PARKED := State(AUTHORIZING, true, false, [Newcomer(First).(ended := true)], 0)
  const SAVED := Ceremony(In(CompletionAndMutation), Saved, false)

  lemma ArrivingSteps()
    ensures var p, start, command :=
              Newcomer(First), Ceremony(In(PreAuthorization), Nothing, false), Advance(PreAuthorization, UserAuthorization);
      && MaySend(p, Register) && Heard(p, UNREGISTERED, Register, true) == p
      && MayReply(UNREGISTERED, Register, Done, true) && Answering(UNREGISTERED, Register, Done) == start
      && MaySend(p.(clear := true), command) && Heard(p.(clear := true), start, command, true) == p
      && MayReply(start, command, Done, true) && Answering(start, command, Done) == AUTHORIZING
  {
    assert TRANSITIONS[0] in TRANSITIONS;
  }

  lemma Arrives()
    ensures Safe(PARKING[..4]) && Run(PARKING[..4]) == State(AUTHORIZING, false, false, [Newcomer(First)], 0)
  {
    assert Run([]) == START;
    ArrivingSteps();
    hide Run, Safe, MaySend, MayReply, Answering, Heard;
    var t, s := Then([], START, Began(First));
    t, s := Then(t, s, PARKING[1]);
    t, s := Then(t, s, PARKING[2]);
    assert s == State(Ceremony(In(PreAuthorization), Nothing, false), false, false, [Newcomer(First).(clear := true)], 0);
    t, s := Then(t, s, PARKING[3]);
    assert t == PARKING[..4];
  }

  lemma Parks()
    ensures Safe(PARKING) && Run(PARKING) == PARKED
  {
    hide Run, Safe;
    Arrives();
    var t, s := Then(PARKING[..4], Run(PARKING[..4]), Stored(0, true));
    t, s := Then(t, s, Ended(0, true));
    assert t == PARKING;
  }

  lemma Fails(trace: seq<Event>, who: nat)
    requires Safe(trace) && who < |Run(trace).parties| && Run(trace).parties[who] == Newcomer(Resuming)
    ensures Safe(trace + Failing(who))
    ensures Run(trace + Failing(who)) ==
      WithParty(Run(trace), who, Newcomer(Resuming).(gaveUp := true, answered := true, ended := true))
  {
    FailingSteps();
    hide Run, Safe, MaySend, Heard;
    var e := Failing(who);
    var t, s := Then(trace, Run(trace), e[0]);
    t, s := Then(t, s, e[1]);
    assert s == WithParty(Run(trace), who, Newcomer(Resuming).(gaveUp := true));
    t, s := Then(t, s, e[2]);
    t, s := Then(t, s, e[3]);
    assert t == trace + e;
  }

  lemma FailingSteps()
    ensures var p := Newcomer(Resuming);
      && MaySend(p, Advance(UserAuthorization, CredentialResolution)) && MaySend(p, Close(UserAuthorization, Failed))
      && (forall c :: Heard(p, c, Advance(UserAuthorization, CredentialResolution), false) == p)
      && (forall c :: Heard(p, c, Close(UserAuthorization, Failed), false) == p.(gaveUp := true))
  {
  }

  const SAVER := Newcomer(Resuming).(left := true, entered := true, created := true, saved := true)

  const RESOLVING := Ceremony(In(CredentialResolution), Nothing, false)
  const COMPLETING := Ceremony(In(CompletionAndMutation), Nothing, false)
  const GOER := Newcomer(Resuming).(left := true)
  const ENTERER := GOER.(entered := true)
  const CREATOR := ENTERER.(created := true)

  /** The mirror leaves its parked phase. */
  lemma Stores(trace: seq<Event>, who: nat)
    requires Safe(trace) && Live(Run(trace), who)
    ensures Safe(trace + [Stored(who, false)]) && Run(trace + [Stored(who, false)]) == Run(trace).(mirrorParked := false)
  {
    Push(trace, Stored(who, false));
  }

  lemma GoesOn(trace: seq<Event>, who: nat)
    requires Safe(trace) && who < |Run(trace).parties| && Run(trace).parties[who] == Newcomer(Resuming)
    requires Run(trace).native == AUTHORIZING
    ensures Safe(trace + Going(who))
    ensures Run(trace + Going(who)) == WithParty(Run(trace), who, GOER).(native := RESOLVING, mirrorParked := false)
  {
    assert TRANSITIONS[2] in TRANSITIONS;
    ReachesItself(trace, who);
    GoingStep();
    hide Run, Safe, MaySend, Heard;
    Calls(trace, Run(trace), who, Advance(UserAuthorization, CredentialResolution), Newcomer(Resuming), AUTHORIZING);
    var t := trace + [Going(who)[0]];
    Stores(t, who);
    assert t + [Stored(who, false)] == trace + Going(who);
  }

  lemma GoingStep()
    ensures var command := Advance(UserAuthorization, CredentialResolution);
      MaySend(Newcomer(Resuming), command) && Heard(Newcomer(Resuming), AUTHORIZING, command, true) == GOER
  {
  }

  /** What a handler hears from completion to a saved credential. */
  lemma SavingSteps()
    ensures MaySend(GOER.(clear := true), Advance(CredentialResolution, CompletionAndMutation))
    ensures Heard(GOER.(clear := true), RESOLVING, Advance(CredentialResolution, CompletionAndMutation), true) == ENTERER
    ensures MaySend(ENTERER, Create) && Heard(ENTERER, COMPLETING, Create, true) == CREATOR
    ensures MaySend(CREATOR.(clear := true), Save)
    ensures Heard(CREATOR.(clear := true), COMPLETING.(durable := Mutated), Save, true) == SAVER
    ensures Accepts(RESOLVING, Advance(CredentialResolution, CompletionAndMutation))
    ensures After(RESOLVING, Advance(CredentialResolution, CompletionAndMutation)) == COMPLETING
    ensures Accepts(COMPLETING, Create) && After(COMPLETING, Create) == COMPLETING.(durable := Mutated)
    ensures Accepts(COMPLETING.(durable := Mutated), Save) && After(COMPLETING.(durable := Mutated), Save) == SAVED
  {
    assert TRANSITIONS[5] in TRANSITIONS;
  }

  lemma Saves(trace: seq<Event>, who: nat)
    requires Safe(trace) && who < |Run(trace).parties| && Run(trace).parties[who] == GOER && !Run(trace).canceled
    requires Run(trace).native == RESOLVING
    ensures Safe(trace + Saving(who))
    ensures Run(trace + Saving(who)) == WithParty(Run(trace), who, SAVER).(native := SAVED)
  {
    ReachesItself(trace, who);
    hide *;
    var s, e := Run(trace), Saving(who);
    Creates(trace, s, who);
    var half := trace + [Looked(who)] + [Called(who, Advance(CredentialResolution, CompletionAndMutation), Done, true)]
                + [Called(who, Create, Done, true)];
    SavesCreated(half, s, who);
    SavingParts(trace, who);
    Reached(trace + e, s, who, SAVER, SAVED);
  }

  lemma Reached(trace: seq<Event>, s: State, who: nat, p: Party, c: Ceremony)
    requires Reaches(trace, s, who, p, c)
    ensures Safe(trace) && who < |s.parties| && Run(trace) == WithParty(s, who, p).(native := c)
  {
  }

  lemma SavingParts(trace: seq<Event>, who: nat)
    ensures trace + [Looked(who)] + [Called(who, Advance(CredentialResolution, CompletionAndMutation), Done, true)]
            + [Called(who, Create, Done, true)] + [Looked(who)] + [Called(who, Save, Done, true)] == trace + Saving(who)
  {
  }

  lemma Creates(trace: seq<Event>, s: State, who: nat)
    requires Reaches(trace, s, who, GOER, RESOLVING) && !s.canceled
    ensures Reaches(trace + [Looked(who)] + [Called(who, Advance(CredentialResolution, CompletionAndMutation), Done, true)]
                    + [Called(who, Create, Done, true)], s, who, CREATOR, COMPLETING.(durable := Mutated))
  {
    SavingSteps();
    hide Run, Safe, MaySend, Heard, Accepts, After, Reaches;
    Looks(trace, s, who, GOER, RESOLVING);
    var t := trace + [Looked(who)];
    Calls(t, s, who, Advance(CredentialResolution, CompletionAndMutation), GOER.(clear := true), RESOLVING);
    Calls(t + [Called(who, Advance(CredentialResolution, CompletionAndMutation), Done, true)], s, who, Create, ENTERER, COMPLETING);
  }

  lemma SavesCreated(trace: seq<Event>, s: State, who: nat)
    requires Reaches(trace, s, who, CREATOR, COMPLETING.(durable := Mutated)) && !s.canceled
    ensures Reaches(trace + [Looked(who)] + [Called(who, Save, Done, true)], s, who, SAVER, SAVED)
  {
    SavingSteps();
    hide Run, Safe, MaySend, Heard, Accepts, After, Reaches;
    Looks(trace, s, who, CREATOR, COMPLETING.(durable := Mutated));
    Calls(trace + [Looked(who)], s, who, Save, CREATOR.(clear := true), COMPLETING.(durable := Mutated));
  }

  lemma DeliveringSteps(c: Ceremony)
    ensures MaySend(SAVER.(clear := true), Commit)
    ensures Heard(SAVER.(clear := true), c, Commit, true) == SAVER.(committed := true)
  {
  }

  lemma Delivers(trace: seq<Event>, who: nat)
    requires Safe(trace) && who < |Run(trace).parties| && Run(trace).parties[who] == SAVER && !Run(trace).canceled
    requires Accepts(Run(trace).native, Commit)
    ensures Safe(trace + Delivering(who))
    ensures Run(trace + Delivering(who)) ==
      WithParty(Run(trace), who, SAVER.(committed := true, answered := true, clear := true, ended := true))
      .(native := After(Run(trace).native, Commit))
  {
    var s, c, e := Run(trace), Run(trace).native, Delivering(who);
    DeliveringSteps(c);
    ReachesItself(trace, who);
    hide Run, Safe, MaySend, Heard, Accepts, After, MayReply, Answering;
    Looks(trace, s, who, SAVER, c);
    Calls(trace + [e[0]], s, who, Commit, SAVER.(clear := true), c);
    Looks(trace + [e[0]] + [e[1]], s, who, SAVER.(committed := true), After(c, Commit));
    Answers(trace + [e[0]] + [e[1]] + [e[2]], s, who, SAVER.(committed := true, clear := true), After(c, Commit));
    assert trace + [e[0]] + [e[1]] + [e[2]] + [e[3]] + [e[4]] == trace + e;
  }

  /** Handing over the credential ends the handler. */
  lemma Answers(trace: seq<Event>, s: State, who: nat, p: Party, c: Ceremony)
    requires Reaches(trace, s, who, p, c) && !p.ended && !p.answered && p.role.Resuming? && p.committed && p.clear
    ensures Reaches(trace + [Completed(who, true, true)] + [Ended(who, false)], s, who, p.(answered := true, ended := true), c)
  {
    hide Run, Safe, MaySend, MayReply, Answering, Heard;
    var q := p.(answered := true);
    Push(trace, Completed(who, true, true));
    assert WithParty(s, who, p).parties[who := q] == s.parties[who := q];
    Push(trace + [Completed(who, true, true)], Ended(who, false));
    assert WithParty(s, who, q).parties[who := q.(ended := true)] == s.parties[who := q.(ended := true)];
  }

  lemma Begins(trace: seq<Event>, role: Role)
    requires Safe(trace) && !role.First? && (role.Resuming? ==> Run(trace).mirrorParked)
    ensures Safe(trace + [Began(role)])
    ensures Run(trace + [Began(role)]) == Run(trace).(parties := Run(trace).parties + [Newcomer(role)])
  {
    Push(trace, Began(role));
  }

  // ---- The runs ----

  /** One resumption after the other: the first fails and cannot close, the second delivers. */
  const ANSWERED_AGAIN :=
    PARKING + [Began(Resuming)] + Failing(1) + [Began(Resuming)] + Going(2) + Saving(2) + Delivering(2)

  /** Both begin before either advances. */
  const ANSWERED_TWICE :=
    PARKING + [Began(Resuming)] + [Began(Resuming)] + Failing(1) + Going(2) + Saving(2) + Delivering(2)

  /** Recovery aborts between save and commit; the commit of the closed ceremony is acknowledged all the same. */
  const OVERTAKEN :=
    PARKING + [Began(Resuming)] + Going(1) + Saving(1) + [Began(Recovering)] + Recovery(2) + Delivering(1)

  /** After an error that could not close the ceremony, a later prompt answers the request again, with a credential. */
  lemma AnsweredAgain()
    ensures Safe(ANSWERED_AGAIN) && Settled(Run(ANSWERED_AGAIN))
    ensures ANSWERED_AGAIN[9] == Completed(1, false, true) && ANSWERED_AGAIN[10] == Ended(1, false)
    ensures ANSWERED_AGAIN[11] == Began(Resuming) && ANSWERED_AGAIN[22] == Completed(2, true, true)
    ensures Run(ANSWERED_AGAIN).native.durable.Committed?
  {
    hide Run, Safe;
    var t := PARKING;
    Parks();
    Begins(t, Resuming);
    t := t + [Began(Resuming)];
    Fails(t, 1);
    t := t + Failing(1);
    Begins(t, Resuming);
    t := t + [Began(Resuming)];
    GoesOn(t, 2);
    t := t + Going(2);
    Saves(t, 2);
    t := t + Saving(2);
    Delivers(t, 2);
  }

  /** Two prompt messages handled before the first advance answer the request twice. */
  lemma AnsweredTwice()
    ensures Safe(ANSWERED_TWICE) && Settled(Run(ANSWERED_TWICE))
    ensures ANSWERED_TWICE[6] == ANSWERED_TWICE[7] == Began(Resuming)
    ensures ANSWERED_TWICE[10] == Completed(1, false, true) && ANSWERED_TWICE[22] == Completed(2, true, true)
  {
    hide Run, Safe;
    var t := PARKING;
    Parks();
    Begins(t, Resuming);
    t := t + [Began(Resuming)];
    Begins(t, Resuming);
    t := t + [Began(Resuming)];
    Fails(t, 1);
    t := t + Failing(1);
    GoesOn(t, 2);
    t := t + Going(2);
    Saves(t, 2);
    t := t + Saving(2);
    Delivers(t, 2);
  }

  lemma RecoverySteps()
    ensures var p := Newcomer(Recovering);
      && MaySend(p, Query) && Heard(p, SAVED, Query, true) == p.(saw := Some(SAVED))
      && MaySend(p.(saw := Some(SAVED)), Abort(Failed))
  {
  }

  lemma Recovers(trace: seq<Event>, who: nat)
    requires Safe(trace) && who < |Run(trace).parties| && Run(trace).parties[who] == Newcomer(Recovering)
    requires Run(trace).native == SAVED
    ensures Safe(trace + Recovery(who)) && Run(trace + Recovery(who)).canceled == Run(trace).canceled
    ensures |Run(trace + Recovery(who)).parties| == |Run(trace).parties|
    ensures Run(trace + Recovery(who)).native == Ceremony(Closed(Failed), Nothing, true)
    ensures forall i :: 0 <= i < |Run(trace).parties| && i != who ==>
      Run(trace + Recovery(who)).parties[i] == Run(trace).parties[i]
  {
    ReachesItself(trace, who);
    RecoverySteps();
    hide Run, Safe, MaySend, Heard;
    var s := Run(trace);
    Calls(trace, s, who, Query, Newcomer(Recovering), SAVED);
    Calls(trace + [Recovery(who)[0]], s, who, Abort(Failed), Newcomer(Recovering).(saw := Some(SAVED)), SAVED);
    assert trace + [Recovery(who)[0]] + [Recovery(who)[1]] == trace + Recovery(who);
  }

  /**
    Recovery can overtake a handler between save and commit: it aborts the
    ceremony, the commit is acknowledged without effect, and the browser gets a
    credential the vault does not hold.
   */
  lemma DeliveredThoughRolledBack()
    ensures Safe(OVERTAKEN) && OVERTAKEN[20] == Completed(1, true, true)
    ensures RollsBackAt(OVERTAKEN, 16) && !Run(OVERTAKEN).native.durable.Committed?
  {
    hide Run, Safe;
    var t := PARKING;
    Parks();
    Begins(t, Resuming);
    t := t + [Began(Resuming)];
    GoesOn(t, 1);
    t := t + Going(1);
    Saves(t, 1);
    t := t + Saving(1);
    Begins(t, Recovering);
    t := t + [Began(Recovering)];
    Recovers(t, 2);
    t := t + Recovery(2);
    Delivers(t, 1);
    assert t + Delivering(1) == OVERTAKEN;
    DeliveryIsDurableExactly(OVERTAKEN, 20);
  }

  /** The mirror alone is not enough: a handler that lags behind stores the parked one again, and another begins. */
  lemma MirrorReopens()
    ensures exists trace, n: nat ::
              Safe(trace) && n < |trace| && !Run(trace[..n]).mirrorParked
              && trace[n..] == [Stored(2, true), Began(Resuming)]
  {
    hide Run, Safe;
    assert TRANSITIONS[2] in TRANSITIONS;
    Parks();
    var t, s := Then(PARKING, PARKED, Began(Resuming));
    t, s := Then(t, s, Began(Resuming));
    t, s := Then(t, s, Called(1, Advance(UserAuthorization, CredentialResolution), Done, true));
    t, s := Then(t, s, Stored(1, false));
    var n := t;
    t, s := Then(t, s, Stored(2, true));
    t, s := Then(t, s, Began(Resuming));
    assert t[..|n|] == n && t[|n|..] == [Stored(2, true), Began(Resuming)];
  }
}
