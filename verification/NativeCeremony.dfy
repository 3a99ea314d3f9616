/** The native runtime's ledger entry for one create ceremony, and how each command finds and leaves it. */
module NativeCeremony {
  import opened CeremonySearch
  import opened CeremonyTable

  datatype Durable = Nothing | Snapshot | Mutated | Saved | Committed

  datatype Closing = Aborted | Failed

  datatype Position = Unknown | In(phase: Phase) | Closed(how: Closing) | Delivered(confirmed: bool)

  /** `rolledBack` is history: an abort or a sweep closed the ceremony and undid its registration. */
  datatype Ceremony = Ceremony(position: Position, durable: Durable, rolledBack: bool)

  const UNREGISTERED := Ceremony(Unknown, Nothing, false)

  datatype Command =
    | Register
    | ReadSession
    | BindVault
    | ReadExcluded
    | Query
    | Advance(from: Phase, to: Phase)
    | Close(from: Phase, how: Closing)
    | Create
    | Save
    | Commit
    | Abort(how: Closing)
    | MarkDelivered
    | MarkUnknownDelivery
    | Sweep

  predicate AtCompletion(c: Ceremony) {
    c.position == In(CompletionAndMutation)
  }

  predicate IsClosed(c: Ceremony) {
    c.position.Closed? || c.position.Delivered?
  }

  /**
    Whether the runtime acknowledges a command when nothing outside the ceremony
    is wrong. Saving, committing and aborting a ceremony that is closed already
    is acknowledged without effect, and so is repeating how it was closed.
   */
  predicate Accepts(c: Ceremony, command: Command) {
    match command
    case Register => c.position.Unknown?
    case BindVault => c.position == In(UserAuthorization)
    case Advance(from, to) => c.position == In(from) && (from, to) in TRANSITIONS
    case Close(from, how) => c.position == In(from) || (from == CompletionAndMutation && c.position == Closed(how))
    case Create => AtCompletion(c) && !c.durable.Committed?
    case Save => IsClosed(c) || (AtCompletion(c) && !c.durable.Nothing? && !c.durable.Committed?)
    case Commit => IsClosed(c) || (AtCompletion(c) && (c.durable.Saved? || c.durable.Committed?))
    case Abort(_) => IsClosed(c) || (AtCompletion(c) && !c.durable.Committed?)
    case MarkDelivered => c.position.Delivered? || (AtCompletion(c) && c.durable.Committed?)
    case MarkUnknownDelivery => c.position == Delivered(false) || (AtCompletion(c) && c.durable.Committed?)
    case _ => true
  }

  /** What an accepted command leaves. */
  function After(c: Ceremony, command: Command): Ceremony {
    match command
    case Register => c.(position := In(PreAuthorization))
    case Advance(_, to) => c.(position := In(to))
    case Close(from, how) => if c.position == In(from) then c.(position := Closed(how)) else c
    case Create => c.(durable := Mutated)
    case Save => if AtCompletion(c) then c.(durable := Saved) else c
    case Commit => if AtCompletion(c) then c.(durable := Committed) else c
    case Abort(how) => if AtCompletion(c) then Ceremony(Closed(how), Nothing, true) else c
    case MarkDelivered => if AtCompletion(c) then c.(position := Delivered(true)) else c
    case MarkUnknownDelivery => if AtCompletion(c) then c.(position := Delivered(false)) else c
    case Sweep =>
      if !AtCompletion(c) || c.durable.Nothing? then c
      else if c.durable.Committed? then c.(position := Delivered(false))
      else Ceremony(Closed(Failed), Nothing, true)
    case _ => c
  }

  /** A command may get lost, be refused for reasons of its own, break off half-way, or be carried out. */
  datatype Fate = Lost | Refused | Broken | Done

  /** Only what was carried out is acknowledged, and that may get lost too; only creating can break off half-way. */
  predicate MayReply(c: Ceremony, command: Command, fate: Fate, acked: bool) {
    && (acked ==> fate.Done?)
    && (fate.Done? ==> Accepts(c, command))
    && (fate.Broken? ==> command.Create? && Accepts(c, command))
  }

  function Answering(c: Ceremony, command: Command, fate: Fate): Ceremony {
    match fate
    case Done => After(c, command)
    case Broken => c.(durable := Snapshot)
    case _ => c
  }

  predicate RollsBack(c: Ceremony, command: Command) {
    AtCompletion(c) && !c.durable.Committed? && (command.Abort? || (command.Sweep? && !c.durable.Nothing?))
  }

  predicate MakesDurable(c: Ceremony, command: Command) {
    AtCompletion(c) && c.durable.Saved? && command.Commit?
  }

  // ---- What every command keeps ----

  predicate PastAuthorization(c: Ceremony) {
    !c.position.Unknown? && c.position != In(PreAuthorization) && c.position != In(UserAuthorization)
  }

  predicate CompletedOrClosed(c: Ceremony) {
    AtCompletion(c) || IsClosed(c)
  }

  /** Durable state exists only from completion on; delivery means committed; a rollback leaves nothing. */
  predicate Fits(c: Ceremony) {
    && (!c.durable.Nothing? ==> CompletedOrClosed(c))
    && (c.position.Delivered? ==> c.durable.Committed?)
    && (c.rolledBack ==> c.position.Closed? && c.durable.Nothing?)
  }

  lemma CommandKeeps(c: Ceremony, command: Command, fate: Fate, acked: bool)
    requires Fits(c) && MayReply(c, command, fate, acked)
    ensures Fits(Answering(c, command, fate))
    ensures PastAuthorization(c) ==> PastAuthorization(Answering(c, command, fate))
    ensures CompletedOrClosed(c) ==> CompletedOrClosed(Answering(c, command, fate))
    ensures IsClosed(c) ==> IsClosed(Answering(c, command, fate))
    ensures Answering(c, command, fate).rolledBack <==> c.rolledBack || (fate.Done? && RollsBack(c, command))
    ensures Answering(c, command, fate).durable.Committed?
       <==> c.durable.Committed? || (fate.Done? && MakesDurable(c, command))
  {
    if command.Advance? {
      TableEdges((command.from, command.to));
    }
  }

  /** A closed ceremony is final: what is still acknowledged changes nothing. */
  lemma ClosedIsFinal(c: Ceremony, command: Command)
    requires IsClosed(c) && Accepts(c, command)
    ensures After(c, command) == c
  {
  }

  /** What a handler may have to repeat when an acknowledgement got lost. */
  predicate Repeatable(command: Command) {
    match command
    case Save => true
    case Commit => true
    case Abort(_) => true
    case MarkDelivered => true
    case MarkUnknownDelivery => true
    case Close(from, _) => from == CompletionAndMutation
    case _ => false
  }

  /** Repeating what was carried out is acknowledged and changes nothing further. */
  lemma RepeatingIsHarmless(c: Ceremony, command: Command)
    requires Repeatable(command) && Accepts(c, command)
    ensures Accepts(After(c, command), command) && After(After(c, command), command) == After(c, command)
  {
  }

  /** What each command takes an open ceremony to, and from where. */
  lemma CommandOutcome(c: Ceremony, command: Command)
    requires Accepts(c, command) && !c.position.Closed? && !c.position.Delivered?
    ensures command.Register? ==> c.position == Unknown && After(c, command) == c.(position := In(PreAuthorization))
    ensures command.Advance? ==> c.position == In(command.from) && After(c, command) == c.(position := In(command.to))
    ensures command.Close? ==> c.position == In(command.from) && After(c, command) == c.(position := Closed(command.how))
    ensures command in {Create, Save, Commit, MarkDelivered, MarkUnknownDelivery} || command.Abort? ==>
      c.position == In(CompletionAndMutation)
    ensures command.Create? ==> c.durable != Committed && After(c, command) == c.(durable := Mutated)
    ensures command.Save? ==> c.durable in {Snapshot, Mutated, Saved} && After(c, command) == c.(durable := Saved)
    ensures command.Commit? ==> c.durable in {Saved, Committed} && After(c, command) == c.(durable := Committed)
    ensures command.Abort? ==> c.durable != Committed && After(c, command) == Ceremony(Closed(command.how), Nothing, true)
    ensures command.MarkDelivered? ==> c.durable == Committed && After(c, command) == c.(position := Delivered(true))
    ensures command.MarkUnknownDelivery? ==> c.durable == Committed && After(c, command) == c.(position := Delivered(false))
    ensures command.Sweep? && (c.position != In(CompletionAndMutation) || c.durable == Nothing) ==> After(c, command) == c
    ensures command.Sweep? && c.position == In(CompletionAndMutation) && c.durable == Committed ==>
      After(c, command) == c.(position := Delivered(false))
    ensures command.Sweep? && c.position == In(CompletionAndMutation) && c.durable in {Snapshot, Mutated, Saved} ==>
      After(c, command) == Ceremony(Closed(Failed), Nothing, true)
  {
  }
}
