/**
  The passkey creation handlers and the recovery beside them. Every await may
  fail, may find the request canceled, and lets everybody else act: other
  handlers of the same request, recovery, and the browser's cancellation.
 */
module CreateFlow {
  import opened Wrappers
  import opened CeremonySearch
  import opened CeremonyTable
  import opened NativeCeremony
  import opened CreateLedger
  import opened CreateDeeds

  /** A thrown error; the user's own abort closes the ceremony differently. */
  datatype Fault = Fault(userAbort: bool)

  /** Where the handler believes the ceremony stands. */
  datatype Stage = Unregistered | Active(phase: Phase) | Over(how: Closing) | OverDelivered

  predicate IsOver(s: Stage) {
    s.Over? || s.OverDelivered?
  }

  const COMPLETION := Active(CompletionAndMutation)

  lemma OthersLeave(s: State, e: Event, who: nat)
    requires who < |s.parties| && !By(e, who)
    ensures who < |Next(s, e).parties| && Next(s, e).parties[who] == s.parties[who]
  {
    hide Heard, Answering;
  }

  /** The native runtime, the session mirror and the browser, and everything asked of them so far. */
  class World {
    var trace: seq<Event>
    var state: State

    ghost predicate Valid()
      reads this
    {
      Safe(trace) && state == Run(trace)
    }

    constructor ()
      ensures Valid() && trace == [] && state == START
    {
      trace, state := [], START;
    }

    ghost function Did(who: nat): seq<Deed>
      reads this
    {
      Deeds(trace, who)
    }

    ghost function Kept(who: nat): seq<bool>
      reads this
    {
      Mirrors(trace, who)
    }

    method Do(e: Event)
      requires Valid() && Allowed(state, e)
      modifies this
      ensures Valid() && trace == old(trace) + [e] && state == Next(old(state), e)
    {
      Push(trace, e);
      hide Run, Safe, Next, Allowed;
      trace, state := trace + [e], Next(state, e);
    }

    method Begin(role: Role) returns (who: nat)
      requires Valid() && Allowed(state, Began(role))
      modifies this
      ensures Valid() && who == old(|state.parties|) && Did(who) == [] && Kept(who) == []
      ensures trace == old(trace) + [Began(role)] && state == old(state).(parties := old(state.parties) + [Newcomer(role)])
    {
      hide Run, Safe, Deeds, Mirrors;
      who := |state.parties|;
      NothingDoneYet(trace, who);
      DeedsPush(trace, Began(role), who);
      Do(Began(role));
    }

    method End(who: nat, parked: bool)
      requires Valid() && Allowed(state, Ended(who, parked))
      modifies this
      ensures Valid() && trace == old(trace) + [Ended(who, parked)] && state == Next(old(state), Ended(who, parked))
      ensures who < |state.parties| && state.parties[who] == old(state.parties[who]).(ended := true)
      ensures Did(who) == old(Did(who)) && Kept(who) == old(Kept(who))
    {
      hide Run, Safe, Deeds, Mirrors;
      DeedsPush(trace, Ended(who, parked), who);
      Do(Ended(who, parked));
    }

    /** Everybody else may do whatever they are allowed to. */
    method Interfere(who: nat)
      requires Valid() && who < |state.parties|
      modifies this
      ensures Valid() && old(trace) <= trace
      ensures who < |state.parties| && state.parties[who] == old(state.parties[who])
      ensures Did(who) == old(Did(who)) && Kept(who) == old(Kept(who))
    {
      hide Run, Safe, Next, Allowed, By, Deeds, Mirrors, DeedOf;
      var steps: int := *;
      for i := 0 to if steps < 0 then 0 else steps
        invariant Valid() && old(trace) <= trace
        invariant who < |state.parties| && state.parties[who] == old(state.parties[who])
        invariant Did(who) == old(Did(who)) && Kept(who) == old(Kept(who))
      {
        var e: Event := *;
        if Allowed(state, e) && !By(e, who) {
          OthersLeave(state, e, who);
          DeedsPush(trace, e, who);
          Do(e);
        }
      }
    }

    /** Sends a command; it may get lost, be refused, break off, or be carried out with or without an answer. */
    method Call(who: nat, command: Command) returns (acked: bool)
      requires Valid() && Live(state, who) && MaySend(state.parties[who], command)
      modifies this
      ensures Valid() && old(trace) <= trace
      ensures who < |state.parties|
      ensures state.parties[who] == Heard(old(state.parties[who]), old(state.native), command, acked)
      ensures Did(who) == old(Did(who)) + [Sent(command, acked)] && Kept(who) == old(Kept(who))
    {
      hide Run, Safe, MaySend, MayReply, Heard, Answering, Deeds, Mirrors;
      var fate: Fate := *;
      acked := *;
      if !MayReply(state.native, command, fate, acked) {
        NothingHeard(state.native, command);
        fate, acked := Lost, false;
      }
      DeedsPush(trace, Called(who, command, fate, acked), who);
      Do(Called(who, command, fate, acked));
      Interfere(who);
    }

    method Complete(who: nat, withCredential: bool) returns (accepted: bool)
      requires Valid() && Allowed(state, Completed(who, withCredential, true))
      modifies this
      ensures Valid() && old(trace) <= trace
      ensures who < |state.parties| && state.parties[who] == old(state.parties[who]).(answered := true)
      ensures Did(who) == old(Did(who)) + [Answered(withCredential, accepted)] && Kept(who) == old(Kept(who))
    {
      hide Run, Safe, Deeds, Mirrors;
      accepted := *;
      DeedsPush(trace, Completed(who, withCredential, accepted), who);
      Do(Completed(who, withCredential, accepted));
      Interfere(who);
    }

    /** Stores the session mirror; when that fails, the failure is swallowed. */
    method Store(who: nat, parked: bool)
      requires Valid() && Allowed(state, Stored(who, parked))
      modifies this
      ensures Valid() && old(trace) <= trace
      ensures who < |state.parties| && state.parties[who] == old(state.parties[who])
      ensures Did(who) == old(Did(who)) && (Kept(who) == old(Kept(who)) || Kept(who) == old(Kept(who)) + [parked])
    {
      hide Run, Safe, Deeds, Mirrors;
      var succeeds: bool := *;
      DeedsPush(trace, Stored(who, parked), who);
      if succeeds {
        Do(Stored(who, parked));
      }
      Interfere(who);
    }

    /** Looks whether the request is canceled. */
    method Notice(who: nat) returns (canceled: bool)
      requires Valid() && Live(state, who)
      modifies this
      ensures Valid() && old(trace) <= trace && canceled == old(state.canceled)
      ensures who < |state.parties|
      ensures state.parties[who] == if canceled then old(state.parties[who]).(noticed := true, clear := false)
                                    else old(state.parties[who]).(clear := true)
      ensures Did(who) == (if canceled then old(Did(who)) + [SawCanceled] else old(Did(who))) && Kept(who) == old(Kept(who))
    {
      hide Run, Safe, Deeds, Mirrors;
      canceled := state.canceled;
      var e := if canceled then Noticed(who) else Looked(who);
      DeedsPush(trace, e, who);
      Do(e);
    }
  }

  /** Looking changes only what was found. */
  lemma StillInStep(p: Party, q: Party)
    requires q == p.(noticed := true, clear := false) || q == p.(clear := true)
    ensures q.role == p.role && q.left == p.left && q.entered == p.entered && q.created == p.created && q.saved == p.saved
    ensures q.committed == p.committed && q.gaveUp == p.gaveUp && q.aborted == p.aborted
    ensures q.answered == p.answered && q.ended == p.ended
  {
  }

  lemma CreateHeard(p: Party, c: Ceremony, acked: bool)
    ensures Heard(p, c, Create, acked) == p.(created := p.created || acked, clear := false)
  {
  }

  lemma NothingHeard(c: Ceremony, command: Command)
    ensures MayReply(c, command, Lost, false)
  {
  }

  /** How the body of a handler ended. */
  datatype Ending = Finished | Parked | Thrown(fault: Fault)

  /** The variables one handler shares across its awaits. */
  class Handler {
    const world: World
    const me: nat
    const role: Role
    var token: bool
    var stage: Stage
    var committed: bool

    /** The handler of the party that began last. */
    constructor (world: World, me: nat, role: Role, stage: Stage)
      requires world.Valid() && me < |world.state.parties| && world.state.parties[me] == Newcomer(role)
      requires !role.Recovering? && (stage == Unregistered || stage == Active(UserAuthorization))
      ensures this.world == world && this.me == me && this.role == role && this.stage == stage
      ensures Untouched() && token == stage.Active? && !Mine().left
    {
      this.world, this.me, this.role := world, me, role;
      this.stage, token, committed := stage, stage.Active?, false;
    }

    ghost predicate Lives()
      reads world
    {
      world.Valid() && Live(world.state, me) && world.state.parties[me].role == role && !role.Recovering?
    }

    ghost function Mine(): Party
      requires Lives()
      reads world
    {
      world.state.parties[me]
    }

    ghost function Did(): seq<Deed>
      reads world
    {
      world.Did(me)
    }

    /** What it did since. */
    ghost function Since(before: seq<Deed>): seq<Deed>
      reads world
    {
      if before <= Did() then Did()[|before|..] else []
    }

    /** Where it would give the ceremony up. */
    ghost function OpenPhase(): Option<Phase>
      reads this
    {
      if token && stage.Active? then Some(stage.phase) else None
    }

    /** The handler's view agrees with what it was told. */
    ghost predicate Valid()
      reads this, world
    {
      && Lives()
      && committed == Mine().committed
      && (Mine().committed ==> Mine().saved) && (Mine().saved ==> Mine().created) && (Mine().created ==> token)
      && (Mine().aborted ==> Mine().gaveUp && IsOver(stage))
      && (stage.Unregistered? ==> !Mine().left)
      && (stage.Active? ==>
            && (stage.phase == PreAuthorization || stage.phase == UserAuthorization <==> !Mine().left)
            && (stage == COMPLETION <==> Mine().entered))
    }

    /** Nothing was answered, and the registration is not settled. */
    ghost predicate Pending()
      reads this, world
    {
      Valid() && !committed && !Mine().gaveUp && !Mine().answered
    }

    /** Nothing was created yet. */
    ghost predicate Untouched()
      reads this, world
    {
      Pending() && !Mine().created && !Mine().entered && !IsOver(stage)
    }

    // ---- Small steps ----

    method Debug()
      requires Valid()
      modifies world
      ensures Valid() && Mine() == old(Mine()) && Did() == old(Did())
    {
      hide Run, Safe, Deeds, Mirrors;
      world.Interfere(me);
    }

    method StoreMirror(parked: bool)
      requires Valid() && (parked ==> !Mine().left)
      modifies world
      ensures Valid() && Mine() == old(Mine()) && Did() == old(Did())
    {
      hide Run, Safe, Deeds, Mirrors;
      world.Store(me, parked);
    }

    method SomeFault() returns (fault: Fault) {
      var userAbort: bool := *;
      fault := Fault(userAbort);
    }

    /** A command that tells the handler nothing but whether it was acknowledged. */
    method Ask(command: Command) returns (fault: Option<Fault>)
      requires Valid() && MaySend(Mine(), command)
      requires !command.Advance? && !command.Create? && !command.Save? && !command.Commit?
      requires !command.Abort? && !command.Close? && !command.Query?
      modifies world
      ensures Valid() && Mine() == old(Mine()).(clear := false)
      ensures Did() == old(Did()) + [Sent(command, fault.None?)]
    {
      hide Run, Safe, MaySend;
      var acked := world.Call(me, command);
      if acked {
        return None;
      }
      var f := SomeFault();
      return Some(f);
    }

    method AdvanceTo(next: Phase) returns (fault: Option<Fault>)
      requires Untouched() && stage.Active? && next != PreAuthorization
      requires if stage.phase == PreAuthorization then role.First? && next == UserAuthorization else next != UserAuthorization
      requires (role.First? && !Mine().left) || next == CompletionAndMutation ==> Mine().clear
      modifies world, this`stage
      ensures Pending() && !Mine().created && stage.Active?
      ensures fault.None? ==> stage == Active(next)
      ensures fault.Some? ==> stage == old(stage)
      ensures next != CompletionAndMutation ==> Untouched()
      ensures token == old(token)
      ensures Did() == old(Did()) + [Sent(Advance(old(stage).phase, next), fault.None?)]
    {
      hide Run, Safe, Deeds, Mirrors;
      var acked := world.Call(me, Advance(stage.phase, next));
      if !acked {
        var f := SomeFault();
        return Some(f);
      }
      stage := Active(next);
      StoreMirror(false);
      return None;
    }

    /** Looks whether the request is canceled. */
    method Look() returns (canceled: bool)
      requires Valid()
      modifies world
      ensures Valid() && canceled == old(world.state.canceled)
      ensures Mine() == if canceled then old(Mine()).(noticed := true, clear := false) else old(Mine()).(clear := true)
      ensures Did() == if canceled then old(Did()) + [SawCanceled] else old(Did())
    {
      hide Run, Safe, Deeds, Mirrors, MaySend, Heard, Next, Allowed;
      canceled := world.Notice(me);
      StillInStep(old(Mine()), Mine());
    }

    method CancelFault() returns (fault: Option<Fault>)
      requires Valid()
      modifies world
      ensures Valid()
      ensures if fault.None? then Mine() == old(Mine()).(clear := true) && Did() == old(Did())
              else fault == Some(Fault(true)) && Mine() == old(Mine()).(noticed := true, clear := false)
                   && Did() == old(Did()) + [SawCanceled]
    {
      hide Run, Safe, Deeds, Mirrors, MaySend, Heard;
      var canceled := Look();
      return if canceled then Some(Fault(true)) else None;
    }

    // ---- Aborting, saving, committing ----

    /** The strict abort: it throws when the abort is not acknowledged. */
    method AbortPending(closed: Closing) returns (fault: Option<Fault>)
      requires Pending() && Mine().entered
      modifies world, this`stage
      ensures Valid() && !committed && !Mine().answered && Mine().created == old(Mine().created) && Mine().gaveUp
      ensures fault.None? ==> stage == Over(closed) && Mine().aborted
      ensures fault.Some? ==> stage == old(stage) && !Mine().aborted
      ensures Did() == old(Did()) + [Sent(Abort(closed), fault.None?)]
      ensures old(Mine().noticed) ==> Mine().noticed
    {
      hide Run, Safe, Deeds, Mirrors;
      var acked := world.Call(me, Abort(closed));
      if !acked {
        var f := SomeFault();
        return Some(f);
      }
      stage := Over(closed);
      StoreMirror(false);
      return None;
    }

    /** Saving; a failed save aborts the registration before its error is rethrown. */
    method SavePending() returns (fault: Option<Fault>)
      requires Pending() && Mine().created && !Mine().saved && Mine().entered && Mine().clear
      modifies world, this`stage
      ensures Valid() && !committed && !Mine().answered && Mine().created
      ensures fault.None? ==> Pending() && Mine().saved && stage == old(stage) && Mine().entered
      ensures fault.Some? ==> Mine().gaveUp
      ensures Did() == old(Did()) + if fault.None? then [Sent(Save, true)]
                                    else [Sent(Save, false), Sent(Abort(Failed), Mine().aborted)]
    {
      hide Run, Safe, Deeds, Mirrors;
      var saved := world.Call(me, Save);
      if saved {
        return None;
      }
      var saveFault := SomeFault();
      var abortFault := AbortPending(Failed);
      return if abortFault.Some? then abortFault else Some(saveFault);
    }

    method CommitPending() returns (fault: Option<Fault>)
      requires Pending() && Mine().saved && Mine().created && Mine().clear
      modifies world, this`committed
      ensures Valid() && !Mine().answered && !Mine().gaveUp && Mine().created
      ensures fault.None? <==> committed
      ensures Did() == old(Did()) + [Sent(Commit, committed)]
    {
      hide Run, Safe, Deeds, Mirrors;
      var acked := world.Call(me, Commit);
      if acked {
        committed := true;
        return None;
      }
      var f := SomeFault();
      return Some(f);
    }

    // ---- After the commit ----

    method MarkCommittedUnknown(alwaysClear: bool) returns (marked: bool)
      requires Valid() && committed
      modifies world
      ensures Valid() && Mine() == old(Mine()).(clear := false)
      ensures Did() == old(Did()) + [Sent(MarkUnknownDelivery, marked)]
    {
      hide Run, Safe, Deeds, Mirrors;
      marked := false;
      if token {
        var fault := Ask(MarkUnknownDelivery);
        marked := fault.None?;
      }
      if marked || alwaysClear {
        StoreMirror(false);
      }
    }

    /** Hands the credential to the browser; afterwards nothing is thrown. */
    method DeliverRegistration() returns (delivered: bool)
      requires Valid() && committed && !Mine().answered && Mine().clear
      modifies world
      ensures Valid() && Mine() == old(Mine()).(answered := true, clear := Mine().clear)
      ensures old(Did()) <= Did() && Delivers(Since(old(Did()))) && Since(old(Did()))[0] == Answered(true, delivered)
    {
      hide Run, Safe, Deeds, Mirrors;
      hide Delivers, Sends, MaySend, Heard;
      DeliveryConfirmed();
      delivered := world.Complete(me, true);
      TailOf(old(Did()), [], [Answered(true, delivered)]);
      if !delivered {
        Debug();
        return;
      }
      ghost var before := old(Did());
      RecordDelivery(before);
      StoreMirror(false);
      Debug();
    }

    method RecordDelivery(ghost before: seq<Deed>)
      requires Valid() && committed && Did() == before + [Answered(true, true)]
      modifies world
      ensures Valid() && Mine() == old(Mine()).(clear := false)
      ensures before <= Did() && Delivers(Since(before)) && Since(before)[0] == Answered(true, true)
    {
      hide Run, Safe, Deeds, Mirrors, Delivers, Sends, Heard;
      DeliveryConfirmed();
      var confirmed := Ask(MarkDelivered);
      TailOf(before, [Answered(true, true)], [Sent(MarkDelivered, confirmed.None?)]);
      if confirmed.Some? {
        var ignored := Ask(MarkUnknownDelivery);
        TailOf(before, [Answered(true, true)] + [Sent(MarkDelivered, false)], [Sent(MarkUnknownDelivery, ignored.None?)]);
      }
    }

    method FinishCommitted(alwaysClear: bool, alwaysClose: bool)
      requires Valid() && committed && !Mine().answered
      modifies world, this`stage
      ensures Valid() && committed && Mine().created == old(Mine().created)
      ensures Mine().answered || Mine().noticed
      ensures old(Did()) <= Did() && Finishes(Since(old(Did())))
    {
      hide Run, Safe, Deeds, Mirrors;
      var canceled := Look();
      if canceled {
        var marked := MarkCommittedUnknown(false);
        if marked {
          stage := OverDelivered;
        }
        return;
      }
      var delivered := DeliverRegistration();
      if delivered {
        stage := OverDelivered;
        return;
      }
      var marked := MarkCommittedUnknown(alwaysClear);
      if marked || alwaysClose {
        stage := OverDelivered;
      }
    }

    // ---- The shared tail: from an authorized ceremony to a delivered credential ----

    /** Create, save, commit, deliver, giving up where the request turns out canceled. */
    method CreateSaveCommitDeliver(alwaysClear: bool, alwaysClose: bool) returns (ending: Ending)
      requires Pending() && !Mine().created && token && stage == COMPLETION
      modifies world, this
      ensures Valid() && token && ending != Parked
      ensures ending.Finished? ==> Mine().created && (Mine().answered || Mine().noticed)
      ensures ending.Thrown? ==> !committed && !Mine().answered
      ensures old(Did()) <= Did() && CreatesToFinish(Since(old(Did())), ending.Finished?)
    {
      hide Run, Safe, Heard, Deeds, CreatesToFinish, Finishes;
      ghost var did := [];
      var created := world.Call(me, Create);
      CreateHeard(old(Mine()), old(world.state.native), created);
      if !created {
        CreateFails();
        TailOf(old(Did()), [], [Sent(Create, false)]);
        var f := SomeFault();
        return Thrown(f);
      }
      did := [Sent(Create, true)];
      Debug();
      var canceled := AbortIfCanceled();
      if canceled.Some? {
        CreatedIsCanceled(canceled.value.Finished?);
        TailOf(old(Did()), did, [SawCanceled, Sent(Abort(Aborted), canceled.value.Finished?)]);
        return canceled.value;
      }
      ending := SaveCommitDeliver(alwaysClear, alwaysClose, old(Did()));
    }

    method SaveCommitDeliver(alwaysClear: bool, alwaysClose: bool, ghost before: seq<Deed>) returns (ending: Ending)
      requires Pending() && Mine().created && !Mine().saved && token && stage == COMPLETION && Mine().clear
      requires Did() == before + [Sent(Create, true)]
      modifies world, this
      ensures Valid() && token && ending != Parked
      ensures ending.Finished? ==> Mine().created && (Mine().answered || Mine().noticed)
      ensures ending.Thrown? ==> !committed && !Mine().answered
      ensures before <= Did() && CreatesToFinish(Since(before), ending.Finished?)
    {
      hide Run, Safe, MaySend, Heard, Deeds, CreatesToFinish, Finishes;
      ghost var did := [Sent(Create, true)];
      var saved := SavePending();
      if saved.Some? {
        SaveFails(Mine().aborted);
        TailOf(before, did, [Sent(Save, false), Sent(Abort(Failed), Mine().aborted)]);
        return Thrown(saved.value);
      }
      TailOf(before, did, [Sent(Save, true)]);
      did := did + [Sent(Save, true)];
      Debug();
      var canceled := AbortIfCanceled();
      if canceled.Some? {
        SavedIsCanceled(canceled.value.Finished?);
        TailOf(before, did, [SawCanceled, Sent(Abort(Aborted), canceled.value.Finished?)]);
        return canceled.value;
      }
      ending := CommitDeliver(alwaysClear, alwaysClose, before);
    }

    method CommitDeliver(alwaysClear: bool, alwaysClose: bool, ghost before: seq<Deed>) returns (ending: Ending)
      requires Pending() && Mine().saved && Mine().created && token && Mine().clear
      requires Did() == before + ([Sent(Create, true)] + [Sent(Save, true)])
      modifies world, this
      ensures Valid() && token && ending != Parked
      ensures ending.Finished? ==> Mine().created && (Mine().answered || Mine().noticed)
      ensures ending.Thrown? ==> !committed && !Mine().answered
      ensures before <= Did() && CreatesToFinish(Since(before), ending.Finished?)
    {
      hide Run, Safe, MaySend, Heard, Deeds, CreatesToFinish, Finishes;
      ghost var did := [Sent(Create, true)] + [Sent(Save, true)];
      var fault := CommitPending();
      TailOf(before, did, [Sent(Commit, committed)]);
      if fault.Some? {
        CommitFails();
        return Thrown(fault.value);
      }
      ghost var mid := Did();
      FinishCommitted(alwaysClear, alwaysClose);
      CommitFinishes(Since(mid));
      TailsJoin(before, mid, Did());
      return Finished;
    }

    /** A request that turns out canceled is aborted; without an acknowledgement that throws. */
    method AbortIfCanceled() returns (ending: Option<Ending>)
      requires Pending() && Mine().created && Mine().entered
      modifies world, this`stage
      ensures Valid() && !committed && !Mine().answered && Mine().created
      ensures ending.None? ==> Pending() && Mine() == old(Mine()).(clear := true) && stage == old(stage) && Did() == old(Did())
      ensures ending.Some? ==> ending.value != Parked && Mine().noticed
      ensures ending.Some? ==> Did() == old(Did()) + [SawCanceled, Sent(Abort(Aborted), ending.value.Finished?)]
    {
      hide Run, Safe, MaySend, Heard, Deeds;
      var canceled := Look();
      if !canceled {
        return None;
      }
      var aborted := AbortPending(Aborted);
      return Some(if aborted.Some? then Thrown(aborted.value) else Finished);
    }

    // ---- Cleaning up after an error ----

    /** Aborts a registration still in its completion phase; true when that was acknowledged. */
    method AbortInCompletion(closed: Closing) returns (aborted: bool)
      requires Valid() && !committed && !Mine().answered
      modifies world
      ensures Lives() && !Mine().answered && (old(Mine().noticed) ==> Mine().noticed)
      ensures !aborted ==> Valid() && !committed
      ensures if OpenPhase() == Some(CompletionAndMutation) then Did() == old(Did()) + [Sent(Abort(closed), aborted)]
              else Did() == old(Did()) && !aborted
    {
      hide Run, Safe, Deeds, Mirrors;
      if !token || stage != COMPLETION {
        return false;
      }
      aborted := world.Call(me, Abort(closed));
      if aborted {
        world.Store(me, false);
      }
    }

    /** Closes the ceremony unless it is closed already; a refusal is swallowed, and leaves the mirror as it is. */
    method CloseCeremony(closed: Closing)
      requires Valid() && !committed
      modifies world
      ensures Valid() && Mine() == old(Mine()).(gaveUp := Mine().gaveUp, clear := Mine().clear)
      ensures if OpenPhase().None? then Did() == old(Did())
              else exists acked :: Did() == old(Did()) + [Sent(Close(OpenPhase().value, closed), acked)]
    {
      hide Run, Safe, Deeds, Mirrors;
      Debug();
      if !token || stage.Unregistered? || IsOver(stage) {
        return;
      }
      var acked := world.Call(me, Close(stage.phase, closed));
      if acked {
        StoreMirror(false);
      }
    }

    method AbortOrClose(closed: Closing)
      requires Valid() && !committed && !Mine().answered
      modifies world
      ensures Lives() && !Mine().answered && (old(Mine().noticed) ==> Mine().noticed)
      ensures old(Did()) <= Did() && GivesUp(Since(old(Did())), OpenPhase(), closed)
    {
      hide Run, Safe, Deeds, Mirrors;
      var aborted := AbortInCompletion(closed);
      if !aborted {
        CloseCeremony(closed);
      }
    }

    /** Answers the browser with an error. */
    method CompleteWithError()
      requires Lives() && !Mine().answered
      modifies world
      ensures Lives() && Mine() == old(Mine()).(answered := true)
      ensures exists accepted :: Did() == old(Did()) + [Answered(false, accepted)]
    {
      hide Run, Safe, Deeds, Mirrors;
      world.Interfere(me);
      var accepted := world.Complete(me, false);
    }

    function ClosingFor(fault: Fault): Closing {
      if fault.userAbort then Aborted else Failed
    }

    /** The catch block of the first handler. */
    method CatchCreateError(fault: Fault)
      requires Valid() && !Mine().answered
      modifies world
      ensures Lives() && (Mine().answered || Mine().noticed)
      ensures old(Did()) <= Did() && CatchesCreate(Since(old(Did())), OpenPhase(), committed, fault.userAbort)
    {
      hide Run, Safe, Deeds, Mirrors;
      Debug();
      hide CatchesCreate, GivesUp, MaySend, Heard;
      ghost var phase, before := OpenPhase(), Did();
      var canceled := Look();
      if canceled {
        DropCanceled(before, fault);
        return;
      }
      assert Since(before) == [];
      if !committed {
        AbortOrClose(ClosingFor(fault));
      }
      CompleteAfter(before, phase, fault);
    }

    /** A canceled request is not answered. */
    method DropCanceled(ghost before: seq<Deed>, fault: Fault)
      requires Valid() && !Mine().answered && Mine().noticed && Did() == before + [SawCanceled]
      modifies world
      ensures Lives() && Mine().noticed
      ensures before <= Did() && CatchesCreate(Since(before), OpenPhase(), committed, fault.userAbort)
    {
      hide Run, Safe, Deeds, Mirrors, CatchesCreate, GivesUp, MaySend, Heard;
      ghost var mid := Did();
      if !committed {
        AbortOrClose(Aborted);
      } else {
        var marked := MarkCommittedUnknown(true);
      }
      CanceledCatch(OpenPhase(), committed, fault.userAbort, Since(mid));
      TailsJoin(before, mid, Did());
    }

    /** The error answer at the end of the first handler's catch block. */
    method CompleteAfter(ghost before: seq<Deed>, ghost phase: Option<Phase>, fault: Fault)
      requires Lives() && !Mine().answered && before <= Did()
      requires if committed then Since(before) == [] else GivesUp(Since(before), phase, HowFor(fault.userAbort))
      modifies world
      ensures Lives() && Mine().answered
      ensures before <= Did() && CatchesCreate(Since(before), phase, committed, fault.userAbort)
    {
      hide Run, Safe, Deeds, Mirrors, CatchesCreate, GivesUp;
      ghost var did := Since(before);
      CompleteWithError();
      ghost var accepted :| Did() == before + did + [Answered(false, accepted)];
      TailOf(before, did, [Answered(false, accepted)]);
      AnsweredCatch(phase, committed, fault.userAbort, did, accepted);
    }

    /** The catch block of the handler that resumes after a prompt. */
    method CatchResumeError(fault: Fault)
      requires Valid() && !Mine().answered
      modifies world
      ensures Lives() && Mine().answered
      ensures old(Did()) <= Did() && CatchesResume(Since(old(Did())), OpenPhase(), committed, fault.userAbort)
    {
      hide Run, Safe, Deeds, Mirrors;
      hide CatchesResume, GivesUpResumed;
      ghost var phase, before := OpenPhase(), Did();
      GiveUpResumed(fault);
      ghost var did := Since(before);
      CompleteWithError();
      ghost var accepted :| Did() == before + did + [Answered(false, accepted)];
      TailOf(before, did, [Answered(false, accepted)]);
      ResumeCatch(phase, committed, fault.userAbort, did, accepted);
    }

    method GiveUpResumed(fault: Fault)
      requires Valid() && !Mine().answered
      modifies world
      ensures Lives() && !Mine().answered
      ensures old(Did()) <= Did() && GivesUpResumed(Since(old(Did())), OpenPhase(), committed, fault.userAbort)
    {
      hide Run, Safe, Deeds, Mirrors, MaySend, Heard;
      Debug();
      if token && !committed && stage == COMPLETION {
        var aborted := AbortInCompletion(ClosingFor(fault));
      } else if committed && token {
        var marked := MarkCommittedUnknown(true);
      } else {
        CloseCeremony(ClosingFor(fault));
      }
    }

    // ---- From registration to the completion phase ----

    /** The advance to credential resolution, through network validation when a related origin needs it. */
    method AdvanceToResolution() returns (fault: Option<Fault>)
      requires Untouched() && token && stage == Active(UserAuthorization) && (role.First? ==> Mine().clear)
      modifies world, this`stage
      ensures Untouched() && token && stage.Active?
      ensures fault.None? ==> stage == Active(CredentialResolution)
      ensures old(Did()) <= Did() && (fault.None? ==> Resolves(Since(old(Did()))))
      ensures fault.Some? ==> stage == old(stage) || stage == Active(NetworkValidation)
    {
      hide Run, Safe, Deeds, Mirrors;
      var related: bool := *;
      if related {
        fault := AdvanceTo(NetworkValidation);
        if fault.Some? {
          return;
        }
      }
      Debug();
      var allowed: bool := *;
      if !allowed {
        return Some(Fault(false));
      }
      fault := AdvanceTo(CredentialResolution);
    }

    /** The exclusion check and the advance into the completion phase. */
    method CheckExcludedAndComplete() returns (fault: Option<Fault>)
      requires Untouched() && token && stage == Active(CredentialResolution)
      modifies world, this`stage
      ensures Pending() && !Mine().created && token && stage.Active?
      ensures fault.None? ==> stage == COMPLETION
      ensures old(Did()) <= Did() && (fault.None? ==> Enters(Since(old(Did()))))
    {
      hide Run, Safe, Deeds, Mirrors;
      fault := CancelFault();
      if fault.Some? {
        return;
      }
      var anyExcluded: bool := *;
      if anyExcluded {
        fault := Ask(ReadExcluded);
        if fault.Some? {
          return;
        }
      }
      fault := CancelFault();
      if fault.Some? {
        return;
      }
      var alreadyRegistered: bool := *;
      if alreadyRegistered {
        return Some(Fault(false));
      }
      fault := AdvanceTo(CompletionAndMutation);
    }

    /** An open prompt parks the mirror; without an answer the handler leaves the request to it. */
    method AskUser() returns (ending: Ending)
      requires Untouched() && stage == Active(UserAuthorization)
      modifies world
      ensures Untouched()
      ensures if ending.Thrown? then ending.fault == Fault(true) && Did() == old(Did()) + [SawCanceled] else Did() == old(Did())
    {
      hide Run, Safe, Deeds, Mirrors;
      var prompted: bool := *;
      if prompted {
        StoreMirror(true);
        var answered: bool := *;
        if !answered {
          var fault := CancelFault();
          return if fault.Some? then Thrown(fault.value) else Parked;
        }
      }
      return Finished;
    }

    /** Asks the user; without an answer the request is parked for the prompt to resume it. */
    method Authorize() returns (ending: Ending)
      requires Untouched() && token && stage == Active(PreAuthorization) && role.First? && Mine().clear
      modifies world, this`stage
      ensures Untouched() && token && stage.Active?
      ensures old(Did()) <= Did()
      ensures ending.Finished? ==>
        Since(old(Did())) == [Sent(Advance(PreAuthorization, UserAuthorization), true), Sent(BindVault, true)]
      ensures !ending.Thrown? ==> stage == Active(UserAuthorization)
    {
      hide Run, Safe, Deeds, Mirrors;
      var fault := AdvanceTo(UserAuthorization);
      if fault.Some? {
        return Thrown(fault.value);
      }
      ending := AskUser();
      if !ending.Finished? {
        return;
      }
      var stillPrompted: bool := *;
      StoreMirror(stillPrompted);
      fault := Ask(BindVault);
      if fault.Some? {
        return Thrown(fault.value);
      }
      var refused: bool := *;
      if refused {
        var f := SomeFault();
        return Thrown(f);
      }
      ending := AskUser();
    }

    /** Checks the request, registers the ceremony and reads the session. */
    method Begin() returns (fault: Option<Fault>)
      requires Untouched() && !token && stage == Unregistered && role.First?
      modifies world, this`token, this`stage
      ensures Untouched()
      ensures fault.None? ==> token && stage == Active(PreAuthorization) && Mine().clear
      ensures old(Did()) <= Did() && (fault.None? ==> Since(old(Did())) == [Sent(Register, true), Sent(ReadSession, true)])
    {
      hide Run, Safe, Deeds, Mirrors;
      Debug();
      var rejected: bool := *;
      if rejected {
        var f := SomeFault();
        return Some(f);
      }
      fault := Ask(Register);
      if fault.Some? {
        return;
      }
      token, stage := true, Active(PreAuthorization);
      StoreMirror(false);
      fault := Ask(ReadSession);
      if fault.Some? {
        return;
      }
      Debug();
      fault := CancelFault();
    }

    /** The try block of the first handler. */
    method TryCreate() returns (ending: Ending)
      requires Untouched() && !token && stage == Unregistered && role.First?
      modifies world, this
      ensures Valid()
      ensures ending.Parked? ==> !Mine().answered && !Mine().left
      ensures ending.Finished? ==> Mine().answered || Mine().noticed
      ensures ending.Thrown? ==> !Mine().answered
      ensures old(Did()) <= Did() && (ending.Finished? ==> GoesThrough(Since(old(Did())), FIRST_START, true))
    {
      hide Run, Safe, Deeds, Mirrors;
      hide Resolves, Enters, CreatesToFinish, GoesThrough, MaySend, Heard;
      ghost var before := Did();
      var fault := Begin();
      if fault.Some? {
        return Thrown(fault.value);
      }
      ghost var begun := Did();
      ending := Authorize();
      if !ending.Finished? {
        return;
      }
      fault := CancelFault();
      if fault.Some? {
        return Thrown(fault.value);
      }
      ghost var started := Did();
      StartParts(before, begun, started);
      ending := Proceed(before, started, FIRST_START, false);
    }

    /** The part both try blocks share, from user authorization to the end. */
    method Proceed(ghost before: seq<Deed>, ghost started: seq<Deed>, ghost start: seq<Deed>, always: bool) returns (ending: Ending)
      requires Untouched() && token && stage == Active(UserAuthorization) && (role.First? ==> Mine().clear)
      requires before <= started == Did() && started[|before|..] == start
      modifies world, this
      ensures Valid() && ending != Parked
      ensures ending.Finished? ==> Mine().created && (Mine().answered || Mine().noticed)
      ensures ending.Thrown? ==> !Mine().answered
      ensures before <= Did() && (ending.Finished? ==> GoesThrough(Since(before), start, true))
    {
      hide Run, Safe, Deeds, Mirrors, Resolves, Enters, CreatesToFinish, GoesThrough, MaySend, Heard;
      var fault := AdvanceToResolution();
      if fault.Some? {
        return Thrown(fault.value);
      }
      ghost var resolved := Did();
      fault := CheckExcludedAndComplete();
      if fault.Some? {
        return Thrown(fault.value);
      }
      ghost var entered := Did();
      ending := CreateSaveCommitDeliver(always, always);
      if ending.Finished? {
        PartsFollow(start, before, started, resolved, entered, Did(), true);
      }
    }

    /** Binds the vault again, and for an unlocked vault verifies the user, with a prompt if need be. */
    method Restore() returns (fault: Option<Fault>)
      requires Untouched() && token && stage == Active(UserAuthorization)
      modifies world
      ensures Untouched()
      ensures old(Did()) <= Did() && (fault.None? ==> Since(old(Did())) == RESUMED_START)
    {
      hide Run, Safe, Deeds, Mirrors;
      var unlocking: bool := *;
      if unlocking {
        StoreMirror(true);
      }
      fault := Ask(BindVault);
      if fault.Some? {
        return;
      }
      if unlocking {
        var prompted: bool := *;
        if prompted {
          StoreMirror(true);
        }
      }
      var refused: bool := *;
      if refused {
        var f := SomeFault();
        fault := Some(f);
      }
    }

    /** The try block of the resuming handler, for a mirror parked in user authorization. */
    method TryResume() returns (ending: Ending)
      requires Untouched() && token && stage == Active(UserAuthorization) && role.Resuming?
      modifies world, this
      ensures Valid() && ending != Parked
      ensures ending.Finished? ==> Mine().answered || (Mine().noticed && Mine().created)
      ensures ending.Thrown? ==> !Mine().answered
      ensures old(Did()) <= Did() && (ending.Finished? ==> GoesThrough(Since(old(Did())), RESUMED_START, true))
    {
      hide Run, Safe, Deeds, Mirrors;
      Debug();
      hide GoesThrough, MaySend, Heard;
      ghost var before := Did();
      var fault := Restore();
      if fault.Some? {
        return Thrown(fault.value);
      }
      ending := Proceed(before, Did(), RESUMED_START, true);
    }
  }

  /**
    The first handler, from the request's arrival. Unless it leaves the request
    to a prompt or notices that it was canceled, it has answered.
   */
  method HandleCreateRequest(world: World) returns (parked: bool)
    requires world.Valid() && world.state.parties == []
    modifies world
    ensures world.Valid() && world.state.parties != []
    ensures var p := world.state.parties[0];
      p.role.First? && p.ended && (if parked then !p.answered && !p.left else p.answered || p.noticed)
  {
    hide Run, Safe, Deeds, Mirrors;
    world.Do(Began(First));
    var handler := new Handler(world, 0, First, Unregistered);
    handler.Debug();
    var ending := handler.TryCreate();
    parked := ending.Parked?;
    if ending.Thrown? {
      handler.CatchCreateError(ending.fault);
    }
    world.Do(Ended(0, parked));
  }

  /**
    A prompt's message: it is taken up whenever it finds the mirror parked,
    whatever became of earlier attempts, and then answered unless a credential
    was created and the cancellation noticed.
   */
  method ResumeAfterPrompt(world: World) returns (who: Option<nat>)
    requires world.Valid()
    modifies world
    ensures world.Valid()
    ensures who.Some? ==> old(world.state.mirrorParked)
    ensures who.Some? ==> old(|world.state.parties|) == who.value < |world.state.parties|
    ensures who.Some? ==> var p := world.state.parties[who.value];
      p.role.Resuming? && p.ended && (p.answered || (p.noticed && p.created))
    ensures who.None? ==> world.trace == old(world.trace)
  {
    hide Run, Safe, Deeds, Mirrors;
    var matches: bool := *;
    if !world.state.mirrorParked || !matches {
      return None;
    }
    var me := |world.state.parties|;
    world.Do(Began(Resuming));
    var handler := new Handler(world, me, Resuming, Active(UserAuthorization));
    var ending := handler.TryResume();
    if ending.Thrown? {
      handler.CatchResumeError(ending.fault);
    }
    world.Do(Ended(me, false));
    return Some(me);
  }

  /**
    Recovery of a ceremony whose mirror outlived its handlers, or seems to: it
    asks the native runtime, then marks, aborts or closes, and drops the mirror;
    a mirror in step with the ceremony stays for its prompt.
   */
  method Reconcile(world: World, mirror: Mirror, holdable: bool, registers: bool)
    requires world.Valid() && (world.state.mirrorParked ==> mirror.phase == UserAuthorization)
    modifies world
    ensures world.Valid() && old(world.trace) <= world.trace
    ensures var me := old(|world.state.parties|);
      && me < |world.state.parties|
      && Recovers(world.Did(me), world.Kept(me), world.state.parties[me].saw, mirror, holdable, registers)
  {
    hide Run, Safe, Deeds, Mirrors;
    hide Heard, Recovers;
    var me := world.Begin(Recovering);
    var known := world.Call(me, Query);
    QueryHeard(Newcomer(Recovering), old(world.state.native), known);
    var seen := if known then world.state.parties[me].saw else None;
    assert world.state.parties[me] == Newcomer(Recovering).(saw := seen);
    if known {
      RecoverKnown(world, me, seen.value, mirror, holdable, registers);
    } else {
      assert world.Did(me) == [Sent(Query, false)];
      NothingRecovered(mirror, holdable, registers);
    }
    world.End(me, false);
  }

  lemma QueryHeard(p: Party, c: Ceremony, acked: bool)
    ensures Heard(p, c, Query, acked) == p.(saw := if acked then Some(c) else p.saw, clear := false)
  {
  }

  lemma NothingRecovered(mirror: Mirror, holdable: bool, registers: bool)
    ensures Recovers([Sent(Query, false)], [], None, mirror, holdable, registers)
  {
  }

  /** Recovery once it was told of the ceremony. */
  method RecoverKnown(world: World, me: nat, seen: Ceremony, mirror: Mirror, holdable: bool, registers: bool)
    requires world.Valid() && Live(world.state, me) && world.Did(me) == [Sent(Query, true)] && world.Kept(me) == []
    requires world.state.parties[me] == Newcomer(Recovering).(saw := Some(seen))
    modifies world
    ensures world.Valid() && old(world.trace) <= world.trace
    ensures Live(world.state, me) && world.state.parties[me].role.Recovering? && world.state.parties[me].saw == Some(seen)
    ensures Recovers(world.Did(me), world.Kept(me), Some(seen), mirror, holdable, registers)
  {
    hide Run, Safe, Deeds, Mirrors, Reachable;
    var drop := true;
    if AtCompletion(seen) {
      drop := world.Call(me, if seen.durable.Committed? then MarkUnknownDelivery else Abort(Failed));
    } else if seen.position.In? {
      if mirror.phase == seen.position.phase {
        drop := false;
      } else {
        var reaches := CanReachActivePhase(TRANSITIONS, mirror, seen.position.phase);
        if !(reaches && holdable) {
          var closed := world.Call(me, Close(seen.position.phase, Failed));
        }
      }
    } else if seen.position.Unknown? {
      drop := !registers;
    }
    if drop {
      world.Store(me, false);
    }
  }

  /** Another request's registration makes the native runtime sweep what it holds to be abandoned. */
  method SweepNatively(world: World)
    requires world.Valid()
    modifies world
    ensures world.Valid() && old(world.trace) <= world.trace
    ensures exists acked :: world.Did(old(|world.state.parties|)) == [Sent(Sweep, acked)]
  {
    hide Run, Safe, Deeds, Mirrors;
    var me := world.Begin(Recovering);
    var swept := world.Call(me, Sweep);
    assert world.Did(me) == [Sent(Sweep, swept)];
    world.End(me, false);
  }

  datatype Move = Prompt | Recover(mirror: Mirror, holdable: bool, registers: bool) | SweepAll | Cancel

  /**
    A whole request: the first handler, then any prompts, recoveries and
    cancellations, each of them overlapped by any others.
   */
  method ServeRequest(world: World, moves: seq<Move>)
    requires world.Valid() && world.trace == []
    modifies world
    ensures Safe(world.trace)
  {
    var parked := HandleCreateRequest(world);
    hide Run, Safe, Deeds, Mirrors;
    for i := 0 to |moves|
      invariant world.Valid()
    {
      match moves[i]
      case Prompt => var who := ResumeAfterPrompt(world);
      case Recover(mirror, holdable, registers) =>
        Reconcile(world, if world.state.mirrorParked then mirror.(phase := UserAuthorization) else mirror, holdable, registers);
      case SweepAll => SweepNatively(world);
      case Cancel => world.Do(Canceled);
    }
  }
}
