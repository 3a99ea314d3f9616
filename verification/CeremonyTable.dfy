/** The shipped transition table, and which ceremonies it lets complete. */
module CeremonyTable {
  import opened CeremonySearch

  const TRANSITIONS: seq<Edge> := [
    (PreAuthorization, UserAuthorization),
    (UserAuthorization, NetworkValidation),
    (UserAuthorization, CredentialResolution),
    (NetworkValidation, CredentialResolution),
    (CredentialResolution, UserSelection),
    (CredentialResolution, CompletionAndMutation),
    (UserSelection, CompletionAndMutation)]

  /** The origin is the relying party's own, or a related one that was checked over the network. */
  predicate OriginProven(m: Mirror) {
    m.originMatches || (m.relatedOriginUsable && m.relatedOriginVerified)
  }

  lemma TableEdges(e: Edge)
    ensures e in TRANSITIONS <==>
      || e == TRANSITIONS[0] || e == TRANSITIONS[1] || e == TRANSITIONS[2] || e == TRANSITIONS[3]
      || e == TRANSITIONS[4] || e == TRANSITIONS[5] || e == TRANSITIONS[6]
  {
  }

  lemma Extend(m: Mirror, e: Edge)
    requires Reachable(TRANSITIONS, m, PreAuthorization, e.0) && e in TRANSITIONS && EdgeAllowed(m, e.0, e.1)
    ensures Reachable(TRANSITIONS, m, PreAuthorization, e.1)
  {
    ReachThrough(TRANSITIONS, m, PreAuthorization, e);
  }

  /** Without a proven origin no path leaves the phases up to network validation. */
  lemma UnprovenStaysOut(m: Mirror, to: Phase)
    requires !OriginProven(m) && Reachable(TRANSITIONS, m, PreAuthorization, to)
    ensures to == PreAuthorization || to == UserAuthorization || to == NetworkValidation
  {
    hide IsPath;
    var inside := {PreAuthorization, UserAuthorization} + if m.relatedOriginUsable then {NetworkValidation} else {};
    forall e | Usable(TRANSITIONS, m, e) && e.0 in inside ensures e.1 in inside {
      TableEdges(e);
    }
    var path :| IsPath(TRANSITIONS, m, PreAuthorization, path, to);
    ClosedSetHoldsAll(TRANSITIONS, m, PreAuthorization, path, to, inside);
  }

  /** Completion is reachable exactly for a proven origin; no path skips that proof. */
  lemma CompletionNeedsProvenOrigin(m: Mirror)
    ensures Reachable(TRANSITIONS, m, PreAuthorization, CompletionAndMutation) <==> OriginProven(m)
    ensures Reachable(TRANSITIONS, m, PreAuthorization, CredentialResolution) <==> OriginProven(m)
  {
    assert IsPath(TRANSITIONS, m, PreAuthorization, [], PreAuthorization);
    assert TRANSITIONS[0] in TRANSITIONS && TRANSITIONS[1] in TRANSITIONS && TRANSITIONS[2] in TRANSITIONS
        && TRANSITIONS[3] in TRANSITIONS && TRANSITIONS[5] in TRANSITIONS;
    Extend(m, TRANSITIONS[0]);
    if m.originMatches {
      Extend(m, TRANSITIONS[2]);
      Extend(m, TRANSITIONS[5]);
    } else if OriginProven(m) {
      Extend(m, TRANSITIONS[1]);
      Extend(m, TRANSITIONS[3]);
      Extend(m, TRANSITIONS[5]);
    } else {
      forall p | Reachable(TRANSITIONS, m, PreAuthorization, p)
        ensures p != CompletionAndMutation && p != CredentialResolution
      {
        UnprovenStaysOut(m, p);
      }
    }
  }

  /** The shipped edges, by name. */
  lemma ShippedEdges(e: Edge)
    ensures e in TRANSITIONS <==>
      || (e.0 == PreAuthorization && e.1 == UserAuthorization)
      || (e.0 == UserAuthorization && e.1 in {NetworkValidation, CredentialResolution})
      || (e.0 == NetworkValidation && e.1 == CredentialResolution)
      || (e.0 == CredentialResolution && e.1 in {UserSelection, CompletionAndMutation})
      || (e.0 == UserSelection && e.1 == CompletionAndMutation)
  {
    TableEdges(e);
  }

  /** An origin that proves itself never takes the network phase, and user selection is open exactly where completion is. */
  lemma OtherPhases(m: Mirror)
    ensures Reachable(TRANSITIONS, m, PreAuthorization, UserAuthorization)
    ensures Reachable(TRANSITIONS, m, PreAuthorization, NetworkValidation) <==> !m.originMatches && m.relatedOriginUsable
    ensures Reachable(TRANSITIONS, m, PreAuthorization, UserSelection) <==> OriginProven(m)
  {
    assert IsPath(TRANSITIONS, m, PreAuthorization, [], PreAuthorization);
    assert TRANSITIONS[0] in TRANSITIONS && TRANSITIONS[1] in TRANSITIONS && TRANSITIONS[4] in TRANSITIONS;
    Extend(m, TRANSITIONS[0]);
    CompletionNeedsProvenOrigin(m);
    if !m.originMatches && m.relatedOriginUsable {
      Extend(m, TRANSITIONS[1]);
    } else {
      NoNetworkPhase(m);
    }
    if OriginProven(m) {
      Extend(m, TRANSITIONS[4]);
    } else if Reachable(TRANSITIONS, m, PreAuthorization, UserSelection) {
      UnprovenStaysOut(m, UserSelection);
    }
  }

  lemma NoNetworkPhase(m: Mirror)
    requires m.originMatches || !m.relatedOriginUsable
    ensures !Reachable(TRANSITIONS, m, PreAuthorization, NetworkValidation)
  {
    hide IsPath;
    var inside := {PreAuthorization, UserAuthorization, CredentialResolution, UserSelection, CompletionAndMutation};
    forall e | Usable(TRANSITIONS, m, e) && e.0 in inside ensures e.1 in inside {
      TableEdges(e);
    }
    if path :| IsPath(TRANSITIONS, m, PreAuthorization, path, NetworkValidation) {
      ClosedSetHoldsAll(TRANSITIONS, m, PreAuthorization, path, NetworkValidation, inside);
    }
  }
}
