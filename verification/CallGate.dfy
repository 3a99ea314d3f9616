/**
  The gate between native callers and one session's runtime. Each method is one
  atomic section of one thread; any order of calls is an interleaving.
 */
module CallGate {
  import opened Wrappers

  type Thread = nat
  type Operation = nat

  /** Why a thread wants the session. */
  datatype Goal = Work | Close(operation: Operation, dropping: bool)

  datatype CallError = ReentrantCall | AdapterCallbackActive | StateUnavailable

  /** Where a thread stands between its atomic sections. */
  datatype Stage =
    | Outside
    | Reserving
    | Waiting
    | Locking
    | Draining
    | Holding
    | InCallback
    | Releasing(panicked: bool)
    | MutexReleased
    | Notifying(failed: bool)
    | ReservationReleased(failed: bool)
    | Failing(error: CallError)

  predicate HasReservation(s: Stage) {
    s.Locking? || s.Draining? || s.Holding? || s.InCallback? || s.Releasing? || s.MutexReleased?
  }

  predicate HasMutex(s: Stage) {
    s.Draining? || s.Holding? || s.InCallback? || s.Releasing?
  }

  predicate HasPermit(s: Stage) {
    s.Reserving? || s.Waiting? || s.Notifying? || s.ReservationReleased? || HasReservation(s)
  }

  ghost predicate Tallies(ended: seq<Operation>, deferred: seq<Operation>, closing: set<Operation>, closed: set<Operation>) {
    forall op ::
      multiset(ended)[op] + multiset(deferred)[op] + (if op in closing then 1 else 0) == if op in closed then 1 else 0
  }

  lemma TallyOpened(ended: seq<Operation>, deferred: seq<Operation>, closing: set<Operation>, closed: set<Operation>,
                    op: Operation)
    requires Tallies(ended, deferred, closing, closed) && op !in closed
    ensures op !in closing
    ensures Tallies(ended, deferred, closing + {op}, closed + {op})
    ensures Tallies(ended, deferred + [op], closing, closed + {op})
  {
  }

  lemma TallyClosed(ended: seq<Operation>, deferred: seq<Operation>, closing: set<Operation>, closed: set<Operation>,
                    op: Operation)
    requires Tallies(ended, deferred, closing, closed) && op in closing
    ensures op in closed
    ensures Tallies(ended + [op], deferred, closing - {op}, closed)
    ensures Tallies(ended, deferred, closing - {op}, closed - {op})
    ensures Tallies(ended, deferred + [op], closing - {op}, closed)
  {
  }

  lemma TallyDrained(ended: seq<Operation>, deferred: seq<Operation>, closing: set<Operation>, closed: set<Operation>)
    requires Tallies(ended, deferred, closing, closed)
    ensures Tallies(ended + deferred, [], closing, closed)
  {
  }

  ghost predicate Undertakings(goals: map<Thread, Goal>, closers: map<Operation, Thread>) {
    && (forall t :: t in goals && goals[t].Close? ==> goals[t].operation in closers && closers[goals[t].operation] == t)
    && (forall op :: op in closers ==>
          closers[op] in goals && goals[closers[op]].Close? && goals[closers[op]].operation == op)
  }

  /** Only a thread on its way through the session has an operation to close. */
  ghost predicate GoalsFit(stages: map<Thread, Stage>, goals: map<Thread, Goal>) {
    forall t :: t in goals && goals[t].Close? ==>
      t in stages && MayClose(stages[t])
  }

  /** A waiting thread that nobody has notified can count on a notification: one is due, or will be. */
  ghost predicate NoLostWakeup(stages: map<Thread, Stage>, notified: set<Thread>, notifiers: set<Thread>, active: bool) {
    forall t :: t in stages && stages[t].Waiting? && t !in notified ==> active || notifiers != {}
  }

  /** The stages a thread with an operation to close may be in. */
  predicate MayClose(s: Stage) {
    !s.Outside? && !s.Releasing? && !s.MutexReleased? && s != Notifying(false) && s != ReservationReleased(false)
  }

  lemma GoalsStayFit(stages: map<Thread, Stage>, goals: map<Thread, Goal>, t: Thread, next: Stage)
    requires GoalsFit(stages, goals) && (MayClose(next) || (t in goals ==> goals[t] == Work))
    ensures GoalsFit(stages[t := next], goals)
  {
  }

  lemma Undertake(goals: map<Thread, Goal>, closers: map<Operation, Thread>, t: Thread, goal: Goal)
    requires Undertakings(goals, closers) && (t in goals ==> goals[t] == Work)
    requires goal.Close? && goal.operation !in closers
    ensures Undertakings(goals[t := goal], closers[goal.operation := t])
  {
  }

  lemma Conclude(goals: map<Thread, Goal>, closers: map<Operation, Thread>, t: Thread)
    requires Undertakings(goals, closers) && t in goals && goals[t].Close?
    ensures goals[t].operation in closers
    ensures Undertakings(goals[t := Work], closers - {goals[t].operation})
  {
  }

  class SessionGate {
    var activeCallbacks: nat
    var runtimeCallActive: bool
    var mutexHolder: Option<Thread>
    var poisoned: bool
    var permits: set<Thread>
    var stages: map<Thread, Stage>
    var goals: map<Thread, Goal>
    var closed: set<Operation>
    var deferred: seq<Operation>
    var ended: seq<Operation>
    var notified: set<Thread>
    ghost var notifiers: set<Thread>
    ghost var reservedBy: Option<Thread>
    ghost var closers: map<Operation, Thread>
    ghost var abandoned: set<Operation>

    function StageOf(t: Thread): Stage
      reads this`stages
    {
      if t in stages then stages[t] else Outside
    }

    function GoalOf(t: Thread): Goal
      reads this`goals
    {
      if t in goals then goals[t] else Work
    }

    /** The reservation and the mutex are exactly where the threads' stages say. */
    ghost predicate HoldersAgree()
      reads this`stages, this`runtimeCallActive, this`reservedBy, this`mutexHolder
    {
      && (runtimeCallActive <==> reservedBy.Some?)
      && (forall t: Thread :: HasReservation(StageOf(t)) <==> reservedBy == Some(t))
      && (forall t: Thread :: HasMutex(StageOf(t)) <==> mutexHolder == Some(t))
      && (mutexHolder.Some? ==> HasMutex(StageOf(mutexHolder.value)))
    }

    /** The permits are held exactly from entry to the end of the call. */
    ghost predicate PermitsAgree()
      reads this`stages, this`permits
    {
      forall t: Thread :: HasPermit(StageOf(t)) <==> t in permits
    }

    /** Callbacks run only inside the one reserved call. */
    ghost predicate CallbacksAgree()
      reads this`stages, this`reservedBy, this`activeCallbacks
    {
      activeCallbacks == if reservedBy.Some? && StageOf(reservedBy.value).InCallback? then 1 else 0
    }

    /** A thread that left the session has nothing left to close. */
    ghost predicate GoalsMet()
      reads this`stages, this`goals
    {
      GoalsFit(stages, goals)
    }

    /** Exactly the operations that some thread has undertaken to end have a closer. */
    ghost predicate ClosersAgree()
      reads this`goals, this`closers
    {
      Undertakings(goals, closers)
    }

    /** A closed operation is ended, deferred, being closed, or given up by a panic: exactly one of them, once. */
    ghost predicate OperationsAgree()
      reads this`ended, this`deferred, this`closers, this`abandoned, this`closed
    {
      closers.Keys !! abandoned && Tallies(ended, deferred, closers.Keys + abandoned, closed)
    }

    /** Who is about to notify, and that no sleeper was overlooked. */
    ghost predicate WaitersAgree()
      reads this`stages, this`notified, this`notifiers, this`runtimeCallActive
    {
      && (forall t: Thread :: StageOf(t).Notifying? <==> t in notifiers)
      && NoLostWakeup(stages, notified, notifiers, runtimeCallActive)
    }

    /** The threads asleep on the condition variable. */
    function Sleepers(): set<Thread>
      reads this`stages
    {
      set t | t in stages && stages[t].Waiting?
    }

    ghost predicate Valid()
      reads this
    {
      && HoldersAgree() && PermitsAgree() && CallbacksAgree() && GoalsMet()
      && ClosersAgree() && OperationsAgree() && WaitersAgree()
    }

    constructor ()
      ensures Valid() && stages == map[] && goals == map[] && ended == [] && deferred == []
    {
      activeCallbacks, runtimeCallActive, mutexHolder, poisoned := 0, false, None, false;
      permits, stages, goals, closed, deferred, ended := {}, map[], map[], {}, [], [];
      notified, notifiers, abandoned := {}, {}, {};
      reservedBy, closers := None, map[];
    }

    // ---- Asking for the session ----

    /** Enters the thread's call; a thread already inside is refused at once and never waits for itself. */
    method EnterCall(t: Thread) returns (entered: bool)
      requires HoldersAgree() && PermitsAgree() && CallbacksAgree() && WaitersAgree()
      requires StageOf(t).Outside? || StageOf(t).InCallback?
      modifies this`permits, this`stages
      ensures HoldersAgree() && PermitsAgree() && CallbacksAgree() && WaitersAgree()
      ensures entered <==> old(StageOf(t)).Outside?
      ensures stages == if entered then old(stages)[t := Reserving] else old(stages)
    {
      if t in permits {
        return false;
      }
      permits := permits + {t};
      stages := stages[t := Reserving];
      return true;
    }

    /** A plain call. */
    method BeginCall(t: Thread) returns (error: Option<CallError>)
      requires Valid() && (StageOf(t).Outside? || StageOf(t).InCallback?)
      modifies this
      ensures Valid() && goals == old(goals)
      ensures error == if old(StageOf(t)).InCallback? then Some(ReentrantCall) else None
      ensures stages == if error.None? then old(stages)[t := Reserving] else old(stages)
    {
      hide HoldersAgree, PermitsAgree, CallbacksAgree, ClosersAgree, OperationsAgree, WaitersAgree;
      var entered := EnterCall(t);
      return if entered then None else Some(ReentrantCall);
    }

    /** Closing an operation: only the thread that finds it open goes on. */
    method BeginClose(t: Thread, op: Operation, dropping: bool)
      requires Valid() && (StageOf(t).Outside? || StageOf(t).InCallback?)
      modifies this
      ensures Valid() && ended == old(ended)
      ensures old(op in closed) ==>
        closed == old(closed) && deferred == old(deferred) && stages == old(stages) && goals == old(goals)
      ensures old(op !in closed && StageOf(t).InCallback?) ==>
        stages == old(stages) && goals == old(goals) && deferred == old(deferred) + (if dropping then [op] else [])
      ensures old(op !in closed && StageOf(t).Outside?) ==>
        StageOf(t).Reserving? && GoalOf(t) == Close(op, dropping) && deferred == old(deferred)
    {
      hide HoldersAgree, PermitsAgree, CallbacksAgree, ClosersAgree, OperationsAgree, WaitersAgree;
      if op in closed {
        return;
      }
      var entered := EnterCall(t);
      if entered {
        TakeUp(t, op, dropping);
      } else if dropping {
        Defer(op);
      }
    }

    /** The thread that closed an operation undertakes to end it. */
    method TakeUp(t: Thread, op: Operation, dropping: bool)
      requires ClosersAgree() && OperationsAgree() && op !in closed && GoalOf(t) == Work
      modifies this`goals, this`closers, this`closed
      ensures ClosersAgree() && OperationsAgree() && goals == old(goals)[t := Close(op, dropping)]
    {
      hide Tallies, Undertakings;
      TallyOpened(ended, deferred, closers.Keys + abandoned, closed, op);
      Undertake(goals, closers, t, Close(op, dropping));
      closed := closed + {op};
      goals := goals[t := Close(op, dropping)];
      closers := closers[op := t];
      assert closers.Keys + abandoned == old(closers.Keys + abandoned) + {op};
    }

    /** Leaves an operation to the next thread that gets the session. */
    method Defer(op: Operation)
      requires ClosersAgree() && OperationsAgree() && op !in closed
      modifies this`closed, this`deferred
      ensures ClosersAgree() && OperationsAgree() && deferred == old(deferred) + [op] && op in closed
    {
      hide Tallies, Undertakings;
      TallyOpened(ended, deferred, closers.Keys + abandoned, closed, op);
      closed := closed + {op};
      deferred := deferred + [op];
    }

    /** Gives an undertaken operation up, open again. */
    method GiveUp(t: Thread)
      requires ClosersAgree() && OperationsAgree() && GoalOf(t).Close?
      modifies this`goals, this`closers, this`closed
      ensures ClosersAgree() && OperationsAgree() && goals == old(goals)[t := Work]
      ensures closed == old(closed) - {old(GoalOf(t)).operation}
    {
      hide Tallies, Undertakings;
      var op := GoalOf(t).operation;
      Conclude(goals, closers, t);
      TallyClosed(ended, deferred, closers.Keys + abandoned, closed, op);
      assert closers.Keys + abandoned - {op} == (closers - {op}).Keys + abandoned;
      closed, closers := closed - {op}, closers - {op};
      goals := goals[t := Work];
    }

    /** One pass of the reservation loop. */
    method Reserve(t: Thread) returns (granted: bool)
      requires Valid() && StageOf(t).Reserving?
      modifies this
      ensures Valid() && goals == old(goals)
      ensures granted <==> old(activeCallbacks == 0 && !runtimeCallActive)
      ensures runtimeCallActive == (old(runtimeCallActive) || granted)
      ensures StageOf(t) ==
        if granted then Locking
        else if old(activeCallbacks) != 0 then Failing(AdapterCallbackActive)
        else Waiting
      ensures stages == old(stages)[t := StageOf(t)]
      ensures closed == old(closed) && deferred == old(deferred) && ended == old(ended)
      ensures abandoned == old(abandoned) && mutexHolder == old(mutexHolder) && poisoned == old(poisoned)
      ensures activeCallbacks == old(activeCallbacks)
    {
      hide ClosersAgree, OperationsAgree;
      if activeCallbacks != 0 {
        permits := permits - {t};
        stages := stages[t := Failing(AdapterCallbackActive)];
        return false;
      }
      if !runtimeCallActive {
        runtimeCallActive, reservedBy := true, Some(t);
        stages := stages[t := Locking];
        return true;
      }
      stages := stages[t := Waiting];
      notified := notified - {t};
      return false;
    }

    /** A notified, or spuriously woken, thread tries again. */
    method Wake(t: Thread)
      requires Valid() && StageOf(t).Waiting?
      modifies this`stages, this`notified
      ensures Valid() && stages == old(stages)[t := Reserving] && notified == old(notified) - {t}
    {
      hide ClosersAgree, OperationsAgree;
      stages := stages[t := Reserving];
      notified := notified - {t};
    }

    /** The runtime mutex: with the reservation in hand nobody else can have it. */
    method LockRuntime(t: Thread)
      requires Valid() && StageOf(t).Locking?
      modifies this
      ensures Valid() && old(mutexHolder).None? && poisoned == old(poisoned) && goals == old(goals)
      ensures if poisoned then StageOf(t) == Notifying(true) && !runtimeCallActive
              else mutexHolder == Some(t) && StageOf(t) == Draining
      ensures stages == old(stages)[t := StageOf(t)]
      ensures closed == old(closed) && deferred == old(deferred) && ended == old(ended)
      ensures abandoned == old(abandoned) && activeCallbacks == old(activeCallbacks) && permits == old(permits)
    {
      hide ClosersAgree, OperationsAgree;
      if poisoned {
        runtimeCallActive, reservedBy, notifiers := false, None, notifiers + {t};
        stages := stages[t := Notifying(true)];
      } else {
        mutexHolder := Some(t);
        stages := stages[t := Draining];
      }
    }

    /** Taking the session ends everything deferred so far. */
    method DrainOnEntry(t: Thread)
      requires Valid() && StageOf(t).Draining?
      modifies this
      ensures Valid() && StageOf(t).Holding? && goals == old(goals)
      ensures deferred == [] && ended == old(ended) + old(deferred)
      ensures stages == old(stages)[t := StageOf(t)]
      ensures closed == old(closed) && abandoned == old(abandoned) && runtimeCallActive == old(runtimeCallActive)
      ensures mutexHolder == old(mutexHolder) && poisoned == old(poisoned) && permits == old(permits)
      ensures activeCallbacks == old(activeCallbacks)
    {
      hide ClosersAgree, Tallies, GoalsFit;
      TallyDrained(ended, deferred, closers.Keys + abandoned, closed);
      GoalsStayFit(stages, goals, t, Holding);
      stages := stages[t := Holding];
      ended, deferred := ended + deferred, [];
    }

    /** The caller was refused: a dropped operation is deferred, any other stays open. */
    method HandleFailure(t: Thread)
      requires Valid() && StageOf(t).Failing?
      modifies this
      ensures Valid() && StageOf(t).Outside? && GoalOf(t) == Work && ended == old(ended)
      ensures var (goal, error) := (old(GoalOf(t)), old(StageOf(t)).error);
        if goal.Close? && goal.dropping && error != StateUnavailable then
          goal.operation in closed && deferred == old(deferred) + [goal.operation]
        else deferred == old(deferred) && (goal.Close? ==> goal.operation !in closed)
      ensures stages == old(stages)[t := StageOf(t)]
      ensures abandoned == old(abandoned) && runtimeCallActive == old(runtimeCallActive)
      ensures mutexHolder == old(mutexHolder) && poisoned == old(poisoned) && permits == old(permits)
      ensures activeCallbacks == old(activeCallbacks)
    {
      hide HoldersAgree, PermitsAgree, CallbacksAgree, ClosersAgree, OperationsAgree, WaitersAgree;
      var goal, error := GoalOf(t), StageOf(t).error;
      LeaveFailed(t);
      if goal.Close? {
        GiveUp(t);
        if goal.dropping && error != StateUnavailable {
          Defer(goal.operation);
        }
      }
    }

    method LeaveFailed(t: Thread)
      requires HoldersAgree() && PermitsAgree() && CallbacksAgree() && WaitersAgree() && StageOf(t).Failing?
      modifies this`stages
      ensures HoldersAgree() && PermitsAgree() && CallbacksAgree() && WaitersAgree()
      ensures stages == old(stages)[t := Outside]
    {
      stages := stages[t := Outside];
    }

    // ---- Inside the session ----

    /** Ends the operation this thread came to close. */
    method EndOwnOperation(t: Thread)
      requires Valid() && StageOf(t).Holding? && GoalOf(t).Close?
      modifies this
      ensures Valid() && StageOf(t).Holding? && GoalOf(t) == Work && deferred == old(deferred)
      ensures ended == old(ended) + [old(GoalOf(t)).operation]
      ensures stages == old(stages)[t := StageOf(t)]
      ensures closed == old(closed) && abandoned == old(abandoned) && runtimeCallActive == old(runtimeCallActive)
      ensures mutexHolder == old(mutexHolder) && poisoned == old(poisoned) && permits == old(permits)
      ensures activeCallbacks == old(activeCallbacks)
    {
      hide HoldersAgree, PermitsAgree, CallbacksAgree, WaitersAgree, Tallies, Undertakings;
      var op := GoalOf(t).operation;
      Conclude(goals, closers, t);
      TallyClosed(ended, deferred, closers.Keys + abandoned, closed, op);
      assert closers.Keys + abandoned - {op} == (closers - {op}).Keys + abandoned;
      ended := ended + [op];
      closers := closers - {op};
      goals := goals[t := Work];
    }

    /** The count rises and every sleeper is notified. */
    method EnterCallback(t: Thread)
      requires Valid() && StageOf(t).Holding?
      modifies this
      ensures Valid() && StageOf(t).InCallback? && goals == old(goals) && activeCallbacks == old(activeCallbacks) + 1
      ensures stages == old(stages)[t := StageOf(t)]
      ensures notified == old(notified) + old(Sleepers())
      ensures closed == old(closed) && deferred == old(deferred) && ended == old(ended)
      ensures abandoned == old(abandoned) && runtimeCallActive == old(runtimeCallActive)
      ensures mutexHolder == old(mutexHolder) && poisoned == old(poisoned) && permits == old(permits)
    {
      hide ClosersAgree, OperationsAgree;
      activeCallbacks := activeCallbacks + 1;
      stages := stages[t := InCallback];
      notified := notified + Sleepers();
    }

    method LeaveCallback(t: Thread)
      requires Valid() && StageOf(t).InCallback?
      modifies this
      ensures Valid() && StageOf(t).Holding? && goals == old(goals) && activeCallbacks == old(activeCallbacks) - 1
      ensures stages == old(stages)[t := StageOf(t)]
      ensures notified == old(notified) + old(Sleepers())
      ensures closed == old(closed) && deferred == old(deferred) && ended == old(ended)
      ensures abandoned == old(abandoned) && runtimeCallActive == old(runtimeCallActive)
      ensures mutexHolder == old(mutexHolder) && poisoned == old(poisoned) && permits == old(permits)
    {
      hide ClosersAgree, OperationsAgree;
      activeCallbacks := activeCallbacks - 1;
      stages := stages[t := Holding];
      notified := notified + Sleepers();
    }

    // ---- Leaving ----

    /** Dropping the guard drains once more; a panic abandons the operation the thread came to close. */
    method DropGuard(t: Thread, panicking: bool)
      requires Valid() && StageOf(t).Holding? && (panicking || GoalOf(t) == Work)
      modifies this
      ensures Valid() && StageOf(t) == Releasing(panicking) && GoalOf(t) == Work
      ensures deferred == [] && ended == old(ended) + old(deferred)
      ensures abandoned == old(abandoned) + if old(GoalOf(t)).Close? then {old(GoalOf(t)).operation} else {}
      ensures stages == old(stages)[t := StageOf(t)]
      ensures closed == old(closed) && runtimeCallActive == old(runtimeCallActive)
      ensures mutexHolder == old(mutexHolder) && poisoned == old(poisoned) && permits == old(permits)
      ensures activeCallbacks == old(activeCallbacks)
    {
      hide HoldersAgree, PermitsAgree, CallbacksAgree, ClosersAgree, WaitersAgree, Tallies, GoalsFit;
      if GoalOf(t).Close? {
        Abandon(t);
      }
      FinishDrain(t, panicking);
    }

    /** A panicking thread leaves its operation closed but never ends it. */
    method Abandon(t: Thread)
      requires GoalsMet() && ClosersAgree() && OperationsAgree() && GoalOf(t).Close?
      modifies this`goals, this`closers, this`abandoned
      ensures GoalsMet() && ClosersAgree() && OperationsAgree() && goals == old(goals)[t := Work]
      ensures abandoned == old(abandoned) + {old(GoalOf(t)).operation}
    {
      hide Tallies, Undertakings;
      var op := GoalOf(t).operation;
      Conclude(goals, closers, t);
      assert closers.Keys + abandoned == (closers - {op}).Keys + (abandoned + {op});
      closers, abandoned := closers - {op}, abandoned + {op};
      goals := goals[t := Work];
    }

    method FinishDrain(t: Thread, panicking: bool)
      requires Valid() && StageOf(t).Holding? && GoalOf(t) == Work
      modifies this`ended, this`deferred, this`stages
      ensures Valid() && StageOf(t) == Releasing(panicking)
      ensures stages == old(stages)[t := Releasing(panicking)]
      ensures deferred == [] && ended == old(ended) + old(deferred)
    {
      hide ClosersAgree, Tallies, GoalsFit;
      TallyDrained(ended, deferred, closers.Keys + abandoned, closed);
      GoalsStayFit(stages, goals, t, Releasing(panicking));
      ended, deferred := ended + deferred, [];
      stages := stages[t := Releasing(panicking)];
    }

    /** The mutex is freed after the drain; what is deferred in between waits for the next holder. */
    method ReleaseMutex(t: Thread)
      requires Valid() && StageOf(t).Releasing?
      modifies this
      ensures Valid() && StageOf(t).MutexReleased? && mutexHolder.None?
      ensures poisoned == (old(poisoned) || old(StageOf(t)).panicked)
      ensures deferred == old(deferred) && ended == old(ended) && runtimeCallActive
      ensures stages == old(stages)[t := StageOf(t)]
      ensures goals == old(goals) && closed == old(closed) && abandoned == old(abandoned)
      ensures permits == old(permits) && activeCallbacks == old(activeCallbacks)
    {
      hide ClosersAgree, OperationsAgree;
      mutexHolder, poisoned := None, poisoned || StageOf(t).panicked;
      stages := stages[t := MutexReleased];
    }

    /** The reservation is cleared first; the notification is a step of its own. */
    method ReleaseReservation(t: Thread)
      requires Valid() && StageOf(t).MutexReleased?
      modifies this
      ensures Valid() && StageOf(t) == Notifying(false) && !runtimeCallActive
      ensures stages == old(stages)[t := StageOf(t)]
      ensures goals == old(goals) && closed == old(closed) && deferred == old(deferred) && ended == old(ended)
      ensures abandoned == old(abandoned) && mutexHolder == old(mutexHolder) && poisoned == old(poisoned)
      ensures permits == old(permits) && activeCallbacks == old(activeCallbacks)
    {
      hide ClosersAgree, OperationsAgree;
      runtimeCallActive, reservedBy, notifiers := false, None, notifiers + {t};
      stages := stages[t := Notifying(false)];
    }

    /** Wakes every sleeper. */
    method NotifyWaiters(t: Thread)
      requires Valid() && StageOf(t).Notifying?
      modifies this
      ensures Valid() && notified == old(notified) + old(Sleepers())
      ensures StageOf(t) == ReservationReleased(old(StageOf(t)).failed)
      ensures forall u :: StageOf(u).Waiting? ==> u in notified
      ensures stages == old(stages)[t := StageOf(t)]
      ensures goals == old(goals) && closed == old(closed) && deferred == old(deferred) && ended == old(ended)
      ensures abandoned == old(abandoned) && runtimeCallActive == old(runtimeCallActive)
      ensures mutexHolder == old(mutexHolder) && poisoned == old(poisoned) && permits == old(permits)
      ensures activeCallbacks == old(activeCallbacks)
    {
      hide ClosersAgree, OperationsAgree;
      notified, notifiers := notified + Sleepers(), notifiers - {t};
      stages := stages[t := ReservationReleased(StageOf(t).failed)];
    }

    /** The permit goes last; a call that found the runtime poisoned then fails. */
    method ReleasePermit(t: Thread)
      requires Valid() && StageOf(t).ReservationReleased?
      modifies this
      ensures Valid() && t !in permits
      ensures StageOf(t) == if old(StageOf(t)).failed then Failing(StateUnavailable) else Outside
      ensures stages == old(stages)[t := StageOf(t)]
      ensures permits == old(permits) - {t}
      ensures goals == old(goals) && closed == old(closed) && deferred == old(deferred) && ended == old(ended)
      ensures abandoned == old(abandoned) && runtimeCallActive == old(runtimeCallActive)
      ensures mutexHolder == old(mutexHolder) && poisoned == old(poisoned)
      ensures activeCallbacks == old(activeCallbacks)
    {
      hide ClosersAgree, OperationsAgree;
      permits := permits - {t};
      stages := stages[t := if StageOf(t).failed then Failing(StateUnavailable) else Outside];
    }
  }

  // ---- Every interleaving ----

  /** One atomic section of one thread. */
  datatype Action =
    | StartWork
    | StartClose(operation: Operation, dropping: bool)
    | Proceed
    | CallOut
    | Panic
    | SpuriousWake

  /** Runs a thread's next section; an action that does not fit its stage is not enabled and changes nothing. */
  method Act(gate: SessionGate, t: Thread, action: Action)
    requires gate.Valid()
    modifies gate
    ensures gate.Valid()
  {
    hide SessionGate.HoldersAgree, SessionGate.PermitsAgree, SessionGate.CallbacksAgree, SessionGate.GoalsMet,
         SessionGate.ClosersAgree, SessionGate.OperationsAgree, SessionGate.WaitersAgree;
    match gate.StageOf(t)
    case Outside =>
      if action.StartWork? {
        var error := gate.BeginCall(t);
      } else if action.StartClose? {
        gate.BeginClose(t, action.operation, action.dropping);
      }
    case InCallback =>
      if action.StartWork? {
        var error := gate.BeginCall(t);
      } else if action.StartClose? {
        gate.BeginClose(t, action.operation, action.dropping);
      } else {
        gate.LeaveCallback(t);
      }
    case Reserving => var granted := gate.Reserve(t);
    case Waiting =>
      if t in gate.notified || action.SpuriousWake? {
        gate.Wake(t);
      }
    case Locking => gate.LockRuntime(t);
    case Draining => gate.DrainOnEntry(t);
    case Failing(_) => gate.HandleFailure(t);
    case Holding =>
      if action.CallOut? {
        gate.EnterCallback(t);
      } else if gate.GoalOf(t).Close? && !action.Panic? {
        gate.EndOwnOperation(t);
      } else {
        gate.DropGuard(t, action.Panic?);
      }
    case Releasing(_) => gate.ReleaseMutex(t);
    case MutexReleased => gate.ReleaseReservation(t);
    case Notifying(_) => gate.NotifyWaiters(t);
    case ReservationReleased(_) => gate.ReleasePermit(t);
  }

  /** Any schedule of any number of threads. */
  method RunSchedule(schedule: seq<(Thread, Action)>) returns (gate: SessionGate)
    ensures fresh(gate) && gate.Valid()
  {
    gate := new SessionGate();
    for i := 0 to |schedule|
      invariant fresh(gate) && gate.Valid()
    {
      Act(gate, schedule[i].0, schedule[i].1);
    }
  }

  /** At most one thread has the reservation, and at most one the mutex. */
  lemma OneHolder(gate: SessionGate, t: Thread, u: Thread)
    requires gate.Valid()
    ensures HasReservation(gate.StageOf(t)) && HasReservation(gate.StageOf(u)) ==> t == u
    ensures gate.StageOf(t).Locking? ==> gate.mutexHolder.None?
  {
  }

  /** A thread that waits for the session holds nothing of it. */
  lemma WaiterHoldsNothing(gate: SessionGate, t: Thread)
    requires gate.Valid() && gate.StageOf(t).Waiting?
    ensures gate.mutexHolder != Some(t) && gate.reservedBy != Some(t)
  {
  }

  /** The thread's next section needs nobody else: it is inside, and not asleep without a notification. */
  ghost predicate CanMove(gate: SessionGate, t: Thread)
    reads gate
  {
    !gate.StageOf(t).Outside? && (gate.StageOf(t).Waiting? ==> t in gate.notified)
  }

  /** No wake-up is lost: a sleeper nobody notified leaves some thread that holds the session or is about to notify. */
  lemma SleeperIsOwedAWakeup(gate: SessionGate, t: Thread)
    requires gate.Valid() && gate.StageOf(t).Waiting? && t !in gate.notified
    ensures exists u :: HasReservation(gate.StageOf(u)) || gate.StageOf(u).Notifying?
  {
    if gate.runtimeCallActive {
      assert HasReservation(gate.StageOf(gate.reservedBy.value));
    } else {
      var u :| u in gate.notifiers;
      assert gate.StageOf(u).Notifying?;
    }
  }

  /** No deadlock: while any thread is inside, some thread can move without a spurious wake-up. */
  lemma SomeThreadCanMove(gate: SessionGate, t: Thread)
    requires gate.Valid() && !gate.StageOf(t).Outside?
    ensures exists u :: CanMove(gate, u)
  {
    if !CanMove(gate, t) {
      SleeperIsOwedAWakeup(gate, t);
      var u :| HasReservation(gate.StageOf(u)) || gate.StageOf(u).Notifying?;
      assert CanMove(gate, u);
    } else {
      assert CanMove(gate, t);
    }
  }

  lemma {:induction false} TwiceCounts(ops: seq<Operation>, i: nat, j: nat)
    requires i < j < |ops| && ops[i] == ops[j]
    ensures multiset(ops)[ops[i]] >= 2
  {
    assert ops == ops[..i] + [ops[i]] + ops[i + 1..j] + [ops[j]] + ops[j + 1..];
  }

  /** No operation is ended twice, and an ended one is neither deferred, nor abandoned, nor about to be closed again. */
  lemma EndedAtMostOnce(gate: SessionGate, i: nat)
    requires gate.Valid() && i < |gate.ended|
    ensures forall j :: 0 <= j < |gate.ended| && j != i ==> gate.ended[j] != gate.ended[i]
    ensures gate.ended[i] in gate.closed && gate.ended[i] !in gate.deferred && gate.ended[i] !in gate.closers
    ensures gate.ended[i] !in gate.abandoned
  {
    var op := gate.ended[i];
    assert op in multiset(gate.ended);
    forall j | 0 <= j < |gate.ended| && j != i ensures gate.ended[j] != op {
      if gate.ended[j] == op {
        TwiceCounts(gate.ended, if i < j then i else j, if i < j then j else i);
        assert false;
      }
    }
  }
}
