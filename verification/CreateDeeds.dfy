/** What one party of a create request did, read off a trace, and the scripts its handlers follow. */
module CreateDeeds {
  import opened Wrappers
  import opened CeremonySearch
  import opened CeremonyTable
  import opened NativeCeremony
  import opened CreateLedger

  /** A command and whether it was acknowledged, finding the request canceled, or answering the browser. */
  datatype Deed = Sent(command: Command, acked: bool) | SawCanceled | Answered(withCredential: bool, accepted: bool)

  ghost function DeedOf(e: Event, who: nat): seq<Deed> {
    match e
    case Called(w, command, _, acked) => if w == who then [Sent(command, acked)] else []
    case Noticed(w) => if w == who then [SawCanceled] else []
    case Completed(w, withCredential, accepted) => if w == who then [Answered(withCredential, accepted)] else []
    case _ => []
  }

  ghost function Deeds(trace: seq<Event>, who: nat): seq<Deed> {
    if trace == [] then [] else Deeds(trace[..|trace| - 1], who) + DeedOf(trace[|trace| - 1], who)
  }

  /** The mirrors it stored: parked or not. */
  ghost function Mirrors(trace: seq<Event>, who: nat): seq<bool> {
    if trace == [] then []
    else
      Mirrors(trace[..|trace| - 1], who) +
      match trace[|trace| - 1]
      case Stored(w, parked) => if w == who then [parked] else []
      case _ => []
  }

  predicate By(e: Event, who: nat) {
    match e
    case Began(_) => false
    case Canceled => false
    case _ => e.who == who
  }

  lemma DeedsPush(trace: seq<Event>, e: Event, who: nat)
    ensures Deeds(trace + [e], who) == Deeds(trace, who) + DeedOf(e, who)
    ensures Mirrors(trace + [e], who) ==
      Mirrors(trace, who) + if e.Stored? && e.who == who then [e.parked] else []
    ensures !By(e, who) ==> Deeds(trace + [e], who) == Deeds(trace, who) && Mirrors(trace + [e], who) == Mirrors(trace, who)
  {
    assert (trace + [e])[..|trace|] == trace;
  }

  /** Who has not begun has done nothing. */
  lemma {:induction false} NothingDoneYet(trace: seq<Event>, who: nat)
    requires Safe(trace) && who >= |Run(trace).parties|
    ensures Deeds(trace, who) == [] && Mirrors(trace, who) == []
  {
    if trace != [] {
      var init, e := trace[..|trace| - 1], trace[|trace| - 1];
      NobodyElse(Run(init), e, who);
      NothingDoneYet(init, who);
      DeedsPush(init, e, who);
      assert init + [e] == trace;
    }
  }

  lemma NobodyElse(s: State, e: Event, who: nat)
    requires Allowed(s, e) && who >= |Next(s, e).parties|
    ensures who >= |s.parties| && !By(e, who)
  {
    hide Answering, MaySend, MayReply, Heard;
  }

  // ---- Scripts ----

  ghost predicate Sends(d: Deed, command: Command) {
    d.Sent? && d.command == command
  }

  ghost predicate AnswersWithError(d: Deed) {
    d.Answered? && !d.withCredential
  }

  ghost function Advanced(from: Phase, to: Phase): Deed {
    Sent(Advance(from, to), true)
  }

  /** Delivery: the browser took the credential, and that is recorded, or else that nothing is known; or it did not take it. */
  ghost predicate Delivers(did: seq<Deed>) {
    || did == [Answered(true, true), Sent(MarkDelivered, true)]
    || (|did| == 3 && did[..2] == [Answered(true, true), Sent(MarkDelivered, false)] && Sends(did[2], MarkUnknownDelivery))
    || did == [Answered(true, false)]
  }

  /** After the commit: a canceled request is not answered; an undelivered credential is recorded as of unknown delivery. */
  ghost predicate Finishes(did: seq<Deed>) {
    || (|did| == 2 && did[0] == SawCanceled && Sends(did[1], MarkUnknownDelivery))
    || (|did| >= 2 && did[0] == Answered(true, true) && Delivers(did))
    || (|did| == 2 && did[0] == Answered(true, false) && Sends(did[1], MarkUnknownDelivery))
  }

  /** Create, save, commit and finish; what fails or turns out canceled on the way is aborted, but for a failed create or commit. */
  ghost predicate CreatesToFinish(did: seq<Deed>, finished: bool) {
    || (did == [Sent(Create, false)] && !finished)
    || did == [Sent(Create, true), SawCanceled, Sent(Abort(Aborted), finished)]
    || (|did| == 3 && did[..2] == [Sent(Create, true), Sent(Save, false)] && Sends(did[2], Abort(Failed)) && !finished)
    || did == [Sent(Create, true), Sent(Save, true), SawCanceled, Sent(Abort(Aborted), finished)]
    || (did == [Sent(Create, true), Sent(Save, true), Sent(Commit, false)] && !finished)
    || (|did| >= 3 && did[..3] == [Sent(Create, true), Sent(Save, true), Sent(Commit, true)] && Finishes(did[3..]) && finished)
  }

  /** Giving up a ceremony in `phase`: in its completion phase an abort, failing that a close; before, a close. */
  ghost predicate GivesUp(did: seq<Deed>, phase: Option<Phase>, how: Closing) {
    if phase == None then did == []
    else if phase == Some(CompletionAndMutation) then
      || did == [Sent(Abort(how), true)]
      || (|did| == 2 && did[0] == Sent(Abort(how), false) && Sends(did[1], Close(CompletionAndMutation, how)))
    else |did| == 1 && Sends(did[0], Close(phase.value, how))
  }

  ghost function HowFor(userAbort: bool): Closing {
    if userAbort then Aborted else Failed
  }

  /** The first handler's catch block. */
  ghost predicate CatchesCreate(did: seq<Deed>, phase: Option<Phase>, committed: bool, userAbort: bool) {
    if did != [] && did[0] == SawCanceled then
      if committed then |did| == 2 && Sends(did[1], MarkUnknownDelivery) else GivesUp(did[1..], phase, Aborted)
    else
      && did != [] && AnswersWithError(did[|did| - 1])
      && if committed then |did| == 1 else GivesUp(did[..|did| - 1], phase, HowFor(userAbort))
  }

  /** A resumed handler aborts or closes, not both; a committed registration is recorded as of unknown delivery. */
  ghost predicate GivesUpResumed(did: seq<Deed>, phase: Option<Phase>, committed: bool, userAbort: bool) {
    if committed then |did| == 1 && Sends(did[0], MarkUnknownDelivery)
    else if phase == None then did == []
    else if phase == Some(CompletionAndMutation) then |did| == 1 && Sends(did[0], Abort(HowFor(userAbort)))
    else |did| == 1 && Sends(did[0], Close(phase.value, HowFor(userAbort)))
  }

  /** The resuming handler's catch block. */
  ghost predicate CatchesResume(did: seq<Deed>, phase: Option<Phase>, committed: bool, userAbort: bool) {
    && did != [] && AnswersWithError(did[|did| - 1])
    && GivesUpResumed(did[..|did| - 1], phase, committed, userAbort)
  }

  /** From user authorization to credential resolution, through network validation at will. */
  ghost predicate Resolves(did: seq<Deed>) {
    || did == [Advanced(UserAuthorization, CredentialResolution)]
    || did == [Advanced(UserAuthorization, NetworkValidation), Advanced(NetworkValidation, CredentialResolution)]
  }

  /** To the completion phase, through the check of excluded credentials at will. */
  ghost predicate Enters(did: seq<Deed>) {
    || did == [Advanced(CredentialResolution, CompletionAndMutation)]
    || did == [Sent(ReadExcluded, true), Advanced(CredentialResolution, CompletionAndMutation)]
  }

  /** The script of a try block that got to the completion phase. */
  ghost predicate GoesThrough(did: seq<Deed>, start: seq<Deed>, finished: bool) {
    exists i, j :: |start| <= i <= j <= |did|
      && did[..|start|] == start && Resolves(did[|start|..i]) && Enters(did[i..j]) && CreatesToFinish(did[j..], finished)
  }

  const FIRST_START: seq<Deed> :=
    [Sent(Register, true), Sent(ReadSession, true), Sent(Advance(PreAuthorization, UserAuthorization), true), Sent(BindVault, true)]

  const RESUMED_START: seq<Deed> := [Sent(BindVault, true)]

  /** The mirror can be moved on to the native phase: along allowed edges, to a phase it can hold. */
  ghost predicate Advances(mirror: Mirror, phase: Phase, holdable: bool) {
    mirror.phase != phase && Reachable(TRANSITIONS, mirror, mirror.phase, phase) && holdable
  }

  /**
    What recovery does with what the native runtime told it. A ceremony in its
    completion phase is marked or aborted, and the mirror dropped if that was
    acknowledged. Otherwise a mirror in step stays, one that lags is moved on,
    and one that can do neither is dropped and its ceremony closed. Storing may
    fail.
   */
  ghost predicate Recovers(did: seq<Deed>, stored: seq<bool>, seen: Option<Ceremony>, mirror: Mirror, holdable: bool, registers: bool) {
    match seen
    case None => did == [Sent(Query, false)] && stored == []
    case Some(c) =>
      did != [] && did[0] == Sent(Query, true) &&
      var rest := did[1..];
      if c.position == In(CompletionAndMutation) then
        && |rest| == 1 && Sends(rest[0], if c.durable.Committed? then MarkUnknownDelivery else Abort(Failed))
        && (!rest[0].acked ==> stored == []) && stored <= [false]
      else if c.position.In? then
        if mirror.phase == c.position.phase then rest == [] && stored == []
        else if Advances(mirror, c.position.phase, holdable) then rest == [] && stored <= [false]
        else |rest| == 1 && Sends(rest[0], Close(c.position.phase, Failed)) && stored <= [false]
      else rest == [] && stored <= (if c.position.Unknown? && registers then [] else [false])
  }

  // ---- Putting scripts together ----

  lemma TailOf(before: seq<Deed>, did: seq<Deed>, more: seq<Deed>)
    ensures before <= before + did + more && (before + did + more)[|before|..] == did + more
    ensures before + did + more == before + (did + more)
  {
  }

  /** One part of a script after another. */
  lemma TailsJoin(a: seq<Deed>, b: seq<Deed>, c: seq<Deed>)
    requires a <= b <= c
    ensures a <= c && c[|a|..] == b[|a|..] + c[|b|..]
  {
  }

  lemma CreateFails()
    ensures CreatesToFinish([Sent(Create, false)], false)
  {
  }

  lemma CreatedIsCanceled(aborted: bool)
    ensures CreatesToFinish([Sent(Create, true)] + [SawCanceled, Sent(Abort(Aborted), aborted)], aborted)
  {
  }

  lemma SaveFails(aborted: bool)
    ensures CreatesToFinish([Sent(Create, true)] + [Sent(Save, false), Sent(Abort(Failed), aborted)], false)
  {
  }

  lemma SavedIsCanceled(aborted: bool)
    ensures CreatesToFinish([Sent(Create, true)] + [Sent(Save, true)] + [SawCanceled, Sent(Abort(Aborted), aborted)], aborted)
  {
  }

  lemma CommitFails()
    ensures CreatesToFinish([Sent(Create, true)] + [Sent(Save, true)] + [Sent(Commit, false)], false)
  {
  }

  lemma CommitFinishes(did: seq<Deed>)
    requires Finishes(did)
    ensures CreatesToFinish([Sent(Create, true)] + [Sent(Save, true)] + [Sent(Commit, true)] + did, true)
  {
    hide Finishes;
    var all := [Sent(Create, true)] + [Sent(Save, true)] + [Sent(Commit, true)] + did;
    assert all[3..] == did && all[..3] == [Sent(Create, true), Sent(Save, true), Sent(Commit, true)];
  }

  lemma GoesThroughParts(start: seq<Deed>, resolve: seq<Deed>, enter: seq<Deed>, create: seq<Deed>, finished: bool)
    requires Resolves(resolve) && Enters(enter) && CreatesToFinish(create, finished)
    ensures GoesThrough(start + resolve + enter + create, start, finished)
  {
    hide Resolves, Enters, CreatesToFinish;
    var did := start + resolve + enter + create;
    var i, j := |start| + |resolve|, |start| + |resolve| + |enter|;
    assert did[..|start|] == start && did[|start|..i] == resolve && did[i..j] == enter && did[j..] == create;
  }

  lemma CanceledCatch(phase: Option<Phase>, committed: bool, userAbort: bool, did: seq<Deed>)
    requires if committed then |did| == 1 && Sends(did[0], MarkUnknownDelivery) else GivesUp(did, phase, Aborted)
    ensures CatchesCreate([SawCanceled] + did, phase, committed, userAbort)
  {
    hide GivesUp;
    assert ([SawCanceled] + did)[1..] == did;
  }

  lemma AnsweredCatch(phase: Option<Phase>, committed: bool, userAbort: bool, did: seq<Deed>, accepted: bool)
    requires if committed then did == [] else GivesUp(did, phase, HowFor(userAbort))
    ensures CatchesCreate(did + [Answered(false, accepted)], phase, committed, userAbort)
  {
    assert (did + [Answered(false, accepted)])[..|did|] == did;
  }

  lemma ResumeCatch(phase: Option<Phase>, committed: bool, userAbort: bool, did: seq<Deed>, accepted: bool)
    requires GivesUpResumed(did, phase, committed, userAbort)
    ensures CatchesResume(did + [Answered(false, accepted)], phase, committed, userAbort)
  {
    assert (did + [Answered(false, accepted)])[..|did|] == did;
  }

  /** A try block's parts, as they follow each other. */
  lemma PartsFollow(start: seq<Deed>, a: seq<Deed>, b: seq<Deed>, c: seq<Deed>, d: seq<Deed>, e: seq<Deed>, finished: bool)
    requires a <= b <= c <= d <= e
    requires b[|a|..] == start && Resolves(c[|b|..]) && Enters(d[|c|..]) && CreatesToFinish(e[|d|..], finished)
    ensures a <= e && GoesThrough(e[|a|..], start, finished)
  {
    hide Resolves, Enters, CreatesToFinish, GoesThrough;
    TailsJoin(a, b, c);
    TailsJoin(a, c, d);
    TailsJoin(a, d, e);
    GoesThroughParts(start, c[|b|..], d[|c|..], e[|d|..], finished);
  }

  lemma StartParts(a: seq<Deed>, b: seq<Deed>, c: seq<Deed>)
    requires a <= b <= c && b[|a|..] == [Sent(Register, true), Sent(ReadSession, true)]
    requires c[|b|..] == [Sent(Advance(PreAuthorization, UserAuthorization), true), Sent(BindVault, true)]
    ensures a <= c && c[|a|..] == FIRST_START
  {
    TailsJoin(a, b, c);
  }

  lemma DeliveryConfirmed()
    ensures Delivers([Answered(true, true)] + [Sent(MarkDelivered, true)])
    ensures Delivers([Answered(true, false)])
    ensures forall acked :: Delivers([Answered(true, true)] + [Sent(MarkDelivered, false)] + [Sent(MarkUnknownDelivery, acked)])
  {
  }
}
