/** What every run of a create request keeps, however its parties interleave. */
module CreateSafety {
  import opened Wrappers
  import opened CeremonySearch
  import opened NativeCeremony
  import opened CreateLedger

  ghost predicate SentAt(trace: seq<Event>, i: int, who: nat, command: Command) {
    0 <= i < |trace| && trace[i].Called? && trace[i].who == who && trace[i].command == command
  }

  /** The party's command was acknowledged to it. */
  ghost predicate ToldAt(trace: seq<Event>, i: int, who: nat, command: Command) {
    SentAt(trace, i, who, command) && trace[i].acked
  }

  predicate Commits(c: Ceremony, e: Event) {
    e.Called? && e.fate.Done? && MakesDurable(c, e.command)
  }

  predicate Undoes(c: Ceremony, e: Event) {
    e.Called? && e.fate.Done? && RollsBack(c, e.command)
  }

  /** The command took a saved ceremony to committed. */
  ghost predicate CommitsAt(trace: seq<Event>, i: int) {
    0 <= i < |trace| && Commits(Run(trace[..i]).native, trace[i])
  }

  /** The command undid a registration that was not committed, and closed its ceremony. */
  ghost predicate RollsBackAt(trace: seq<Event>, i: int) {
    0 <= i < |trace| && Undoes(Run(trace[..i]).native, trace[i])
  }

  lemma Prefixes(trace: seq<Event>)
    requires trace != []
    ensures forall i {:trigger trace[..i]} :: 0 <= i < |trace| ==> trace[..|trace| - 1][..i] == trace[..i]
  {
  }

  lemma LastStep(trace: seq<Event>)
    requires trace != [] && Safe(trace)
    ensures var init := trace[..|trace| - 1];
      Safe(init) && Allowed(Run(init), trace[|trace| - 1]) && Run(trace) == Next(Run(init), trace[|trace| - 1])
  {
    hide Next, Allowed;
  }

  // ---- Committing and rolling back ----

  /** The native state is the effect of events of the trace. */
  lemma {:induction false} NativeIsExplained(trace: seq<Event>)
    requires Safe(trace)
    ensures Run(trace).native.durable.Committed? <==> exists i :: CommitsAt(trace, i)
    ensures Run(trace).native.rolledBack <==> exists i :: RollsBackAt(trace, i)
  {
    if trace != [] {
      var init, last := trace[..|trace| - 1], |trace| - 1;
      LastStep(trace);
      NativeIsExplained(init);
      EveryRunIsInStep(init);
      NativeStep(Run(init), trace[last]);
      hide Run, Safe, Inv, Commits, Undoes, Next, Allowed, CommitsAt, RollsBackAt;
      CommitsExtended(trace);
      RollbacksExtended(trace);
    }
  }

  lemma CommitsExtended(trace: seq<Event>)
    requires trace != []
    ensures var init, last := trace[..|trace| - 1], trace[|trace| - 1];
      (exists i :: CommitsAt(trace, i)) <==> (exists i :: CommitsAt(init, i)) || Commits(Run(init).native, last)
  {
    hide Run, Commits;
    Prefixes(trace);
    var init, last := trace[..|trace| - 1], |trace| - 1;
    assert forall i :: 0 <= i < last ==> (CommitsAt(init, i) <==> CommitsAt(trace, i));
    assert CommitsAt(trace, last) <==> Commits(Run(init).native, trace[last]);
  }

  lemma RollbacksExtended(trace: seq<Event>)
    requires trace != []
    ensures var init, last := trace[..|trace| - 1], trace[|trace| - 1];
      (exists i :: RollsBackAt(trace, i)) <==> (exists i :: RollsBackAt(init, i)) || Undoes(Run(init).native, last)
  {
    hide Run, Undoes;
    Prefixes(trace);
    var init, last := trace[..|trace| - 1], |trace| - 1;
    assert forall i :: 0 <= i < last ==> (RollsBackAt(init, i) <==> RollsBackAt(trace, i));
    assert RollsBackAt(trace, last) <==> Undoes(Run(init).native, trace[last]);
  }

  lemma NativeStep(s: State, e: Event)
    requires Inv(s) && Allowed(s, e)
    ensures Next(s, e).native.durable.Committed? <==> s.native.durable.Committed? || Commits(s.native, e)
    ensures Next(s, e).native.rolledBack <==> s.native.rolledBack || Undoes(s.native, e)
  {
    hide InStep, MaySend, Fits, Answering, Heard, MakesDurable, RollsBack, MayReply;
    if e.Called? {
      CommandKeeps(s.native, e.command, e.fate, e.acked);
    }
  }

  /** No ceremony is both committed and rolled back, whoever asks for either and however often. */
  lemma CommitAndRollbackExclude(trace: seq<Event>, i: nat, j: nat)
    requires Safe(trace) && CommitsAt(trace, i)
    ensures !RollsBackAt(trace, j)
  {
    NativeIsExplained(trace);
    EveryRunIsInStep(trace);
  }

  // ---- What a party was told ----

  /** At every event the sender was entitled to it. */
  lemma StepAt(trace: seq<Event>, i: nat)
    requires Safe(trace) && i < |trace|
    ensures Safe(trace[..i]) && Allowed(Run(trace[..i]), trace[i])
    ensures Run(trace[..i + 1]) == Next(Run(trace[..i]), trace[i])
  {
    hide Run, Safe, Next, Allowed;
    SafePrefix(trace, i + 1);
    LastStep(trace[..i + 1]);
    assert trace[..i + 1][..i] == trace[..i] && trace[..i + 1][i] == trace[i];
  }

  /** What the sender had become by an event, it still is. */
  lemma SenderAt(trace: seq<Event>, i: nat, who: nat)
    requires Safe(trace) && i < |trace| && trace[i].Called? && trace[i].who == who
    ensures who < |Run(trace[..i]).parties| && MaySend(Run(trace[..i]).parties[who], trace[i].command)
    ensures InStep(Run(trace[..i]).parties[who], Run(trace[..i]).native)
    ensures who < |Run(trace).parties| && Outgrows(Run(trace[..i]).parties[who], Run(trace).parties[who])
    ensures Outgrows(Heard(Run(trace[..i]).parties[who], Run(trace[..i]).native, trace[i].command, trace[i].acked),
                     Run(trace).parties[who])
  {
    StepAt(trace, i);
    EveryRunIsInStep(trace[..i]);
    RunGrows(trace, i);
    RunGrows(trace, i + 1);
    hide Run, Safe, InStep, MaySend, MayReply, Outgrows, Heard, Answering;
  }

  lemma {:induction false} ToldIsKept(trace: seq<Event>, i: nat, who: nat, command: Command)
    requires Safe(trace) && SentAt(trace, i, who, command)
    ensures who < |Run(trace).parties|
    ensures var p := Run(trace).parties[who];
      && (command.Abort? ==> p.gaveUp)
      && (ToldAt(trace, i, who, command) && command.Commit? ==> p.committed)
  {
    SenderAt(trace, i, who);
    hide Run, Safe, InStep, MaySend;
  }

  /** All creating, saving and committing of one ceremony is one party's. */
  lemma OneCreator(trace: seq<Event>, i: nat, j: nat, who: nat, other: nat)
    requires Safe(trace)
    requires SentAt(trace, i, who, Create) || SentAt(trace, i, who, Save) || SentAt(trace, i, who, Commit)
    requires SentAt(trace, j, other, Create) || SentAt(trace, j, other, Save) || SentAt(trace, j, other, Commit)
    ensures who == other
  {
    CreatorLeft(trace, i, who);
    CreatorLeft(trace, j, other);
    OneGoesOn(trace, who, other);
  }

  lemma CreatorLeft(trace: seq<Event>, i: nat, who: nat)
    requires Safe(trace)
    requires SentAt(trace, i, who, Create) || SentAt(trace, i, who, Save) || SentAt(trace, i, who, Commit)
    ensures who < |Run(trace).parties| && Run(trace).parties[who].left
  {
    SenderAt(trace, i, who);
    hide Run, Safe;
  }

  /** However many handlers serve the request, at most one gets past user authorization. */
  lemma OneGoesOn(trace: seq<Event>, who: nat, other: nat)
    requires Safe(trace) && who < |Run(trace).parties| && other < |Run(trace).parties|
    requires Run(trace).parties[who].left && Run(trace).parties[other].left
    ensures who == other
  {
    EveryRunIsInStep(trace);
    hide Run, InStep;
    if who < other {
      OneLeft(Run(trace), who, other);
    } else if other < who {
      OneLeft(Run(trace), other, who);
    }
  }

  lemma OneLeft(s: State, i: nat, j: nat)
    requires Inv(s) && i < j < |s.parties|
    ensures !(s.parties[i].left && s.parties[j].left)
  {
  }

  /** By its own acknowledgements a party sends no abort after a commit, and it sends no commit after an abort. */
  lemma CommitAndAbortExclude(trace: seq<Event>, i: nat, j: nat, who: nat, how: Closing)
    requires Safe(trace) && i < j < |trace|
    ensures ToldAt(trace, i, who, Commit) ==> !SentAt(trace, j, who, Abort(how))
    ensures SentAt(trace, i, who, Abort(how)) ==> !SentAt(trace, j, who, Commit)
  {
    var before := trace[..j];
    assert before[i] == trace[i];
    if SentAt(trace, i, who, Commit) || SentAt(trace, i, who, Abort(how)) {
      SafePrefix(trace, j);
      ToldIsKept(before, i, who, trace[i].command);
      if trace[j].Called? && trace[j].who == who {
        SenderAt(trace, j, who);
      }
      hide Run, Safe;
    }
  }

  // ---- Delivery ----

  ghost predicate SavedAt(trace: seq<Event>, who: nat, c: int, s: int) {
    ToldAt(trace, c, who, Create) && ToldAt(trace, s, who, Save) && c < s
  }

  ghost predicate CommittedAt(trace: seq<Event>, who: nat, c: int, s: int, m: int) {
    SavedAt(trace, who, c, s) && ToldAt(trace, m, who, Commit) && s < m
  }

  ghost predicate Explained(trace: seq<Event>, who: nat, p: Party) {
    && (p.created ==> exists c :: ToldAt(trace, c, who, Create))
    && (p.saved ==> exists c, s :: SavedAt(trace, who, c, s))
    && (p.committed ==> exists c, s, m :: CommittedAt(trace, who, c, s, m))
  }

  lemma Longer(trace: seq<Event>, e: Event, who: nat, p: Party)
    requires Explained(trace, who, p)
    ensures Explained(trace + [e], who, p)
  {
    var longer := trace + [e];
    assert forall i :: 0 <= i < |trace| ==> longer[i] == trace[i];
    if p.created {
      var c :| ToldAt(trace, c, who, Create);
      assert ToldAt(longer, c, who, Create);
    }
    if p.saved {
      var c, s :| SavedAt(trace, who, c, s);
      assert SavedAt(longer, who, c, s);
    }
    if p.committed {
      var c, s, m :| CommittedAt(trace, who, c, s, m);
      assert CommittedAt(longer, who, c, s, m);
    }
  }

  lemma Told(trace: seq<Event>, who: nat, command: Command, fate: Fate, p: Party, c: Ceremony)
    requires Explained(trace, who, p) && MaySend(p, command) && (p.saved ==> p.created)
    ensures Explained(trace + [Called(who, command, fate, true)], who, Heard(p, c, command, true))
  {
    var longer, last, q := trace + [Called(who, command, fate, true)], |trace|, Heard(p, c, command, true);
    Longer(trace, longer[last], who, p);
    assert ToldAt(longer, last, who, command);
    if command.Create? {
      assert Counts(q) == (true, p.saved, p.committed);
    } else if command.Save? {
      var i :| ToldAt(trace, i, who, Create);
      assert SavedAt(longer, who, i, last);
      assert Counts(q) == (p.created, true, p.committed);
    } else if command.Commit? {
      var i, j :| SavedAt(trace, who, i, j);
      assert SavedAt(longer, who, i, j) && CommittedAt(longer, who, i, j, last);
      assert Counts(q) == (p.created, p.saved, true);
    } else {
      SameExplained(longer, who, p, q);
    }
  }

  /** Only an acknowledgement to the party itself changes what it counts. */
  lemma PartyAfter(s: State, e: Event, who: nat)
    requires who < |Next(s, e).parties|
    ensures who >= |s.parties| ==> Counts(Next(s, e).parties[who]) == (false, false, false)
    ensures who < |s.parties| ==>
      if e.Called? && e.who == who && e.acked then
        Next(s, e).parties[who] == Heard(s.parties[who], s.native, e.command, true)
      else Counts(Next(s, e).parties[who]) == Counts(s.parties[who])
  {
    hide Answering;
  }

  function Counts(p: Party): (bool, bool, bool) {
    (p.created, p.saved, p.committed)
  }

  /** What a party counts as created, saved and committed was acknowledged to it in that order. */
  lemma {:induction false} PartyIsExplained(trace: seq<Event>, who: nat)
    requires Safe(trace) && who < |Run(trace).parties|
    ensures Explained(trace, who, Run(trace).parties[who])
  {
    var init, e := trace[..|trace| - 1], trace[|trace| - 1];
    var s := Run(init);
    assert trace == init + [e];
    LastStep(trace);
    EveryRunIsInStep(init);
    PartyAfter(s, e, who);
    if who < |s.parties| {
      PartyIsExplained(init, who);
      var p := s.parties[who];
      hide Run, Safe, Explained, Next, MayReply, MaySend, Heard;
      if e.Called? && e.who == who && e.acked {
        assert InStep(p, s.native);
        Told(init, who, e.command, e.fate, p, s.native);
      } else {
        Longer(init, e, who, p);
        SameExplained(trace, who, p, Run(trace).parties[who]);
      }
    }
  }

  lemma SameExplained(trace: seq<Event>, who: nat, p: Party, q: Party)
    requires Explained(trace, who, p) && Counts(p) == Counts(q)
    ensures Explained(trace, who, q)
  {
  }

  /** A credential is delivered only by a party to which create, save and commit were acknowledged in that order. */
  lemma DeliveryIsOrdered(trace: seq<Event>, i: nat)
    requires Safe(trace) && i < |trace| && trace[i].Completed? && trace[i].withCredential
    ensures exists c, s, m :: CommittedAt(trace[..i], trace[i].who, c, s, m)
  {
    StepAt(trace, i);
    PartyIsExplained(trace[..i], trace[i].who);
  }

  /**
    A delivered credential is committed for good exactly when nothing rolled its
    ceremony back, and only recovery can have done that.
   */
  lemma DeliveryIsDurableExactly(trace: seq<Event>, i: nat)
    requires Safe(trace) && i < |trace| && trace[i].Completed? && trace[i].withCredential
    ensures Run(trace).native.durable.Committed? <==> !exists j :: RollsBackAt(trace, j)
    ensures forall j :: RollsBackAt(trace, j) ==>
      trace[j].who < |Run(trace).parties| && Run(trace).parties[trace[j].who].role.Recovering?
  {
    var who := trace[i].who;
    StepAt(trace, i);
    RunGrows(trace, i);
    Growth(Run(trace[..i]), Run(trace), who);
    EveryRunIsInStep(trace);
    NativeIsExplained(trace);
    forall j | RollsBackAt(trace, j)
      ensures trace[j].who < |Run(trace).parties| && Run(trace).parties[trace[j].who].role.Recovering?
    {
      RollsBackByRecovery(trace, j, who);
    }
  }

  lemma Growth(s: State, t: State, who: nat)
    requires Grows(s, t) && who < |s.parties|
    ensures who < |t.parties| && Outgrows(s.parties[who], t.parties[who])
  {
  }

  /** The party that committed rolls nothing back, and no other handler gets that far. */
  lemma RollsBackByRecovery(trace: seq<Event>, j: nat, who: nat)
    requires Safe(trace) && RollsBackAt(trace, j)
    requires who < |Run(trace).parties| && Run(trace).parties[who].committed
    ensures trace[j].who < |Run(trace).parties| && Run(trace).parties[trace[j].who].role.Recovering?
  {
    var other := trace[j].who;
    SenderAt(trace, j, other);
    EveryRunIsInStep(trace);
    assert InStep(Run(trace).parties[who], Run(trace).native);
    if Run(trace).parties[other].left {
      OneGoesOn(trace, who, other);
    }
  }

  /**
    The guard: an acknowledged commit stands exactly when it found the ceremony
    still in its completion phase, or committed before; on a closed ceremony it
    is acknowledged without effect.
   */
  lemma CommitStandsExactly(trace: seq<Event>, m: nat, who: nat)
    requires Safe(trace) && ToldAt(trace, m, who, Commit)
    ensures var c := Run(trace[..m]).native;
      Run(trace).native.durable.Committed? <==> AtCompletion(c) || c.durable.Committed?
  {
    StepAt(trace, m);
    SenderAt(trace, m, who);
    RunGrows(trace, m);
    RunGrows(trace, m + 1);
    EveryRunIsInStep(trace);
  }

  // ---- Looking whether the request is canceled ----

  /** The last thing the party heard of the request before `n` is that it was not canceled; it sent nothing since. */
  ghost predicate FoundClear(trace: seq<Event>, n: int, who: nat, at: int) {
    && 0 <= at < n <= |trace| && trace[at] == Looked(who)
    && forall k :: at < k < n ==> !(trace[k].Called? && trace[k].who == who) && trace[k] != Noticed(who)
  }

  lemma {:induction false} ClearIsFound(trace: seq<Event>, who: nat)
    requires Safe(trace) && who < |Run(trace).parties| && Run(trace).parties[who].clear
    ensures exists at :: FoundClear(trace, |trace|, who, at)
  {
    var init, e := trace[..|trace| - 1], trace[|trace| - 1];
    var s := Run(init);
    LastStep(trace);
    if e == Looked(who) {
      assert FoundClear(trace, |trace|, who, |init|);
    } else {
      ClearAfter(s, e, who);
      ClearIsFound(init, who);
      var at :| FoundClear(init, |init|, who, at);
      assert FoundClear(trace, |trace|, who, at);
    }
  }

  lemma ClearAfter(s: State, e: Event, who: nat)
    requires who < |Next(s, e).parties| && Next(s, e).parties[who].clear && e != Looked(who)
    ensures who < |s.parties| && s.parties[who].clear && !(e.Called? && e.who == who) && e != Noticed(who)
  {
    hide Answering;
  }

  /** The request is canceled since `c`: the first handler, which forgets cancellations when it ends, has not ended since. */
  ghost predicate CanceledSince(trace: seq<Event>, c: int) {
    && 0 <= c < |trace| && trace[c].Canceled?
    && forall k {:trigger trace[k]} :: c < k < |trace| && trace[k].Ended? ==> !ByFirst(trace, k)
  }

  ghost predicate ByFirst(trace: seq<Event>, k: int) {
    0 <= k < |trace| && trace[k].Ended?
    && trace[k].who < |Run(trace[..k]).parties| && Run(trace[..k]).parties[trace[k].who].role.First?
  }

  lemma {:induction false} CanceledExactly(trace: seq<Event>)
    requires Safe(trace)
    ensures Run(trace).canceled <==> exists c :: CanceledSince(trace, c)
  {
    if trace != [] {
      var init, last := trace[..|trace| - 1], |trace| - 1;
      LastStep(trace);
      CanceledExactly(init);
      CanceledAfter(Run(init), trace[last]);
      hide Run, Safe, Allowed, Next, CanceledSince;
      CancellationExtended(trace);
    }
  }

  lemma CancellationExtended(trace: seq<Event>)
    requires trace != []
    ensures var init, last := trace[..|trace| - 1], |trace| - 1;
      (exists c :: CanceledSince(trace, c)) <==>
        trace[last].Canceled? || ((exists c :: CanceledSince(init, c)) && !ByFirst(trace, last))
  {
    hide Run;
    var init, last := trace[..|trace| - 1], |trace| - 1;
    SameFirst(trace);
    if trace[last].Canceled? {
      assert CanceledSince(trace, last);
    }
    forall c | 0 <= c < last ensures CanceledSince(trace, c) <==> CanceledSince(init, c) && !ByFirst(trace, last) {
      assert init[c] == trace[c];
    }
  }

  lemma SameFirst(trace: seq<Event>)
    requires trace != []
    ensures forall k :: 0 <= k < |trace| - 1 ==> (ByFirst(trace[..|trace| - 1], k) <==> ByFirst(trace, k))
  {
    hide Run;
    Prefixes(trace);
  }

  lemma CanceledAfter(s: State, e: Event)
    requires Allowed(s, e)
    ensures Next(s, e).canceled <==>
      e.Canceled? || (s.canceled && !(e.Ended? && e.who < |s.parties| && s.parties[e.who].role.First?))
  {
    hide Answering, MaySend, MayReply, Heard;
  }

  /** What matters to the user: past the prompt, excluding, saving, committing and delivering a credential. */
  ghost predicate Matters(e: Event, who: nat) {
    || (e.Called? && e.who == who
        && (e.command in {ReadExcluded, Save, Commit} || (e.command.Advance? && e.command.to == CompletionAndMutation)))
    || (e.Completed? && e.who == who && e.withCredential)
  }

  /** No such step is taken but by a party that found the request not canceled, and sent nothing in between. */
  lemma LooksFirst(trace: seq<Event>, i: nat, who: nat) returns (at: int)
    requires Safe(trace) && i < |trace| && Matters(trace[i], who)
    ensures FoundClear(trace, i, who, at) && forall c :: !CanceledSince(trace[..at], c)
  {
    StepAt(trace, i);
    hide Run, Safe, Next;
    ClearWhereItMatters(Run(trace[..i]), trace[i], who);
    ClearIsFound(trace[..i], who);
    at :| FoundClear(trace[..i], i, who, at);
    NotCanceledThen(trace, at, who);
  }

  lemma NotCanceledThen(trace: seq<Event>, at: nat, who: nat)
    requires Safe(trace) && at < |trace| && trace[at] == Looked(who)
    ensures forall c :: !CanceledSince(trace[..at], c)
  {
    StepAt(trace, at);
    CanceledExactly(trace[..at]);
    hide Run, Safe, CanceledSince;
  }

  lemma ClearWhereItMatters(s: State, e: Event, who: nat)
    requires Allowed(s, e) && Matters(e, who)
    ensures who < |s.parties| && s.parties[who].clear
  {
    hide MayReply;
  }
}
