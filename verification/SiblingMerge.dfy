/** Locations, and the positions of merged records among their siblings. */
module SiblingMerge {
  import opened Wrappers
  import opened IdOrder
  import opened Model
  import opened Forest
  import opened Tree
  import opened Siblings
  import opened SiblingOrder

  /** Where a record ends up, and which side decided. */
  datatype Location = Location(parent: Uuid, changedAt: Option<nat>, conflict: bool, prefersLocal: bool)

  function MergeLocation(base: Uuid, local: Uuid, remote: Uuid, localAt: Option<nat>, remoteAt: Option<nat>): Location {
    var l, r := localAt.GetOr(0), remoteAt.GetOr(0);
    if local == base then Location(remote, remoteAt, false, false)
    else if remote == base then Location(local, localAt, false, true)
    else if local == remote then Location(remote, Some(if l > r then l else r), false, l > r)
    else if l > r then Location(local, localAt, true, true)
    else Location(remote, remoteAt, true, false)
  }

  /** The three versions of one kind of record, and when each record was last moved. */
  datatype Sides<!V> = Sides(
    kind: ObjectKind,
    base: Records<V>,
    local: Records<V>,
    remote: Records<V>,
    movedAt: V -> Option<nat>)

  /** Whether a merged record's position follows local's sibling order. */
  predicate OrderPrefersLocal<V>(s: Sides<V>, merged: Records<V>, id: Uuid) {
    id in s.local && id in merged && s.local[id].parent == merged[id].parent
    && (id in s.remote ==>
          && id in s.base
          && s.base[id].parent.Some? && s.local[id].parent.Some? && s.remote[id].parent.Some?
          && MergeLocation(s.base[id].parent.value, s.local[id].parent.value, s.remote[id].parent.value,
                           s.movedAt(s.local[id].value), s.movedAt(s.remote[id].value)).prefersLocal)
  }

  /** One side's order of those children that survive the merge under `parent`. */
  function SurvivingOrder<V>(m: Records<V>, parent: Uuid, finalIds: set<Uuid>): seq<Uuid> {
    SortIds(ChildIds(m, parent) * finalIds, Ranks(m))
  }

  function PreferredIds<V>(s: Sides<V>, merged: Records<V>, parent: Uuid): set<Uuid> {
    set id | id in ChildIds(merged, parent) && OrderPrefersLocal(s, merged, id)
  }

  function MergedOrder<V>(s: Sides<V>, merged: Records<V>, parent: Uuid): Result<seq<Uuid>, PatchError> {
    var finalIds := ChildIds(merged, parent);
    Rebased(parent, s.kind, finalIds, SurvivingOrder(s.local, parent, finalIds),
            SurvivingOrder(s.remote, parent, finalIds), PreferredIds(s, merged, parent))
  }

  function ParentsOf<V>(m: Records<V>): set<Uuid> {
    set id | id in m && m[id].parent.Some? :: m[id].parent.value
  }

  /** The first parent whose children cannot be ordered. */
  function FirstUnordered<V>(s: Sides<V>, merged: Records<V>, parents: seq<Uuid>): Outcome<PatchError> {
    if parents == [] then Pass
    else match MergedOrder(s, merged, parents[0])
      case Failure(e) => Fail(e)
      case Success(_) => FirstUnordered(s, merged, parents[1..])
  }

  /** A merged record moved to its place in the rebased order of its siblings. */
  function Repositioned<V>(s: Sides<V>, merged: Records<V>, id: Uuid): Flat<V>
    requires id in merged
  {
    if merged[id].parent.Some? && MergedOrder(s, merged, merged[id].parent.value).Success? then
      merged[id].(order := Position(MergedOrder(s, merged, merged[id].parent.value).value, id))
    else merged[id]
  }

  function Reconciled<V>(s: Sides<V>, merged: Records<V>): Result<Records<V>, PatchError> {
    match FirstUnordered(s, merged, Ascending(ParentsOf(merged)))
    case Fail(e) => Failure(e)
    case Pass => Success(map id | id in merged :: Repositioned(s, merged, id))
  }

  // ---- Reconciliation changes positions only ----

  /** The same records under the same parents, possibly at other positions. */
  ghost predicate SamePlaces<V>(a: Records<V>, b: Records<V>) {
    a.Keys == b.Keys && forall id :: id in a ==> a[id].parent == b[id].parent && a[id].value == b[id].value
  }

  lemma {:induction false} FirstUnorderedIsExact<V>(s: Sides<V>, merged: Records<V>, parents: seq<Uuid>)
    ensures var r := FirstUnordered(s, merged, parents);
      && (r.Pass? <==> forall p :: p in parents ==> MergedOrder(s, merged, p).Success?)
      && (r.Fail? ==> r.error.SiblingOrderChange? && r.error.kind == s.kind && r.error.parent in parents
                      && MergedOrder(s, merged, r.error.parent).Failure?)
  {
    if parents != [] {
      FirstUnorderedIsExact(s, merged, parents[1..]);
      assert parents == [parents[0]] + parents[1..];
    }
  }

  /** The rebased order of one sibling list, and the surviving orders it comes from. */
  lemma MergedOrderIsSound<V>(s: Sides<V>, merged: Records<V>, p: Uuid)
    requires MergedOrder(s, merged, p).Success?
    ensures var order := MergedOrder(s, merged, p).value;
      Distinct(order) && forall id :: id in order <==> id in merged && merged[id].parent == Some(p)
  {
    var finalIds := ChildIds(merged, p);
    RebasedIsSound(p, s.kind, finalIds, SurvivingOrder(s.local, p, finalIds),
                   SurvivingOrder(s.remote, p, finalIds), PreferredIds(s, merged, p));
    var order := MergedOrder(s, merged, p).value;
    assert forall id :: id in order <==> id in Elements(order);
  }

  lemma PositionInDistinct(q: seq<Uuid>, i: nat)
    requires Distinct(q) && i < |q|
    ensures Position(q, q[i]) == i
  {
    var k := Position(q, q[i]);
    assert q[k] == q[i];
  }

  lemma RepositionedListing<V>(s: Sides<V>, merged: Records<V>, result: Records<V>, p: Uuid)
    requires MergedOrder(s, merged, p).Success?
    requires result.Keys == merged.Keys && forall id :: id in merged ==> result[id] == Repositioned(s, merged, id)
    ensures var order := MergedOrder(s, merged, p).value;
      ChildList(result, p) == order && forall i :: 0 <= i < |order| ==> order[i] in result && result[order[i]].order == i
  {
    var order := MergedOrder(s, merged, p).value;
    MergedOrderIsSound(s, merged, p);
    forall i | 0 <= i < |order|
      ensures order[i] in result && result[order[i]].parent == Some(p) && result[order[i]].order == i
    {
      PositionInDistinct(order, i);
    }
    ChildListIs(result, p, order);
  }

  /**
    Reconciliation fails exactly when some sibling list cannot be rebased, moves
    nothing to another parent, and numbers every sibling list 0, 1, 2, ... in
    its rebased order.
   */
  lemma ReconciledIsExact<V>(s: Sides<V>, merged: Records<V>)
    ensures var r := Reconciled(s, merged);
      && (r.Success? <==> forall p :: p in ParentsOf(merged) ==> MergedOrder(s, merged, p).Success?)
      && (r.Failure? ==> r.error.SiblingOrderChange? && r.error.kind == s.kind)
      && (r.Success? ==>
            && SamePlaces(r.value, merged) && DenseOrders(r.value)
            && (forall p :: p in ParentsOf(merged) ==> ChildList(r.value, p) == MergedOrder(s, merged, p).value)
            && (forall id :: id in merged && merged[id].parent.None? ==> r.value[id] == merged[id]))
  {
    var parents := Ascending(ParentsOf(merged));
    assert forall p :: p in parents <==> p in Elements(parents);
    FirstUnorderedIsExact(s, merged, parents);
    if Reconciled(s, merged).Success? {
      AllRepositioned(s, merged, Reconciled(s, merged).value);
    }
  }

  lemma AllRepositioned<V>(s: Sides<V>, merged: Records<V>, result: Records<V>)
    requires result.Keys == merged.Keys && forall id :: id in merged ==> result[id] == Repositioned(s, merged, id)
    requires forall p :: p in ParentsOf(merged) ==> MergedOrder(s, merged, p).Success?
    ensures DenseOrders(result)
    ensures forall p :: p in ParentsOf(merged) ==> ChildList(result, p) == MergedOrder(s, merged, p).value
  {
    forall p | p in ParentsOf(merged)
      ensures ChildList(result, p) == MergedOrder(s, merged, p).value
    {
      RepositionedListing(s, merged, result, p);
    }
    forall p, i | 0 <= i < |ChildList(result, p)|
      ensures ChildList(result, p)[i] in result && result[ChildList(result, p)[i]].order == i
    {
      InChildList(result, p, ChildList(result, p)[i]);
      assert p in ParentsOf(merged);
      RepositionedListing(s, merged, result, p);
    }
  }

  // ---- The loop over parents ----

  /** The parents of `done` have been reconciled. */
  ghost predicate ReconciledFor<V>(s: Sides<V>, merged: Records<V>, current: Records<V>, done: seq<Uuid>) {
    && current.Keys == merged.Keys
    && forall id :: id in merged ==>
         current[id] == if merged[id].parent.Some? && merged[id].parent.value in done
                        then Repositioned(s, merged, id) else merged[id]
  }

  lemma MergedOrderIgnoresPositions<V>(s: Sides<V>, a: Records<V>, b: Records<V>, p: Uuid)
    requires SamePlaces(a, b)
    ensures ChildIds(a, p) == ChildIds(b, p) && PreferredIds(s, a, p) == PreferredIds(s, b, p)
    ensures MergedOrder(s, a, p) == MergedOrder(s, b, p)
  {
  }

  method WritePositions<V>(m: Records<V>, order: seq<Uuid>) returns (next: Records<V>)
    requires Distinct(order) && forall id :: id in order ==> id in m
    ensures next.Keys == m.Keys
    ensures forall id :: id in m ==>
      next[id] == if id in order then m[id].(order := Position(order, id)) else m[id]
  {
    next := m;
    for j := 0 to |order|
      invariant next.Keys == m.Keys
      invariant forall id :: id in m ==>
        next[id] == if id in order[..j] then m[id].(order := Position(order, id)) else m[id]
    {
      PositionInDistinct(order, j);
      next := next[order[j] := next[order[j]].(order := j)];
      assert order[..j + 1] == order[..j] + [order[j]];
    }
    assert order[..|order|] == order;
  }

  method ReconcileParent<V>(s: Sides<V>, ghost merged: Records<V>, current: Records<V>, ghost done: seq<Uuid>, p: Uuid)
    returns (result: Result<Records<V>, PatchError>)
    requires ReconciledFor(s, merged, current, done) && p !in done
    ensures result.Failure? ==> MergedOrder(s, merged, p) == Failure(result.error)
    ensures result.Success? ==>
      MergedOrder(s, merged, p).Success? && ReconciledFor(s, merged, result.value, done + [p])
  {
    MergedOrderIgnoresPositions(s, current, merged, p);
    var finalIds := ChildIds(current, p);
    var order := RebaseSiblingOrder(p, s.kind, finalIds, SurvivingOrder(s.local, p, finalIds),
                                    SurvivingOrder(s.remote, p, finalIds), PreferredIds(s, current, p));
    if order.Failure? {
      return Failure(order.error);
    }
    MergedOrderIsSound(s, merged, p);
    var next := WritePositions(current, order.value);
    return Success(next);
  }

  lemma NothingReconciled<V>(s: Sides<V>, merged: Records<V>)
    ensures ReconciledFor(s, merged, merged, [])
  {
  }

  lemma UnorderedStep<V>(s: Sides<V>, merged: Records<V>, parents: seq<Uuid>, i: nat)
    requires i < |parents|
    ensures match MergedOrder(s, merged, parents[i])
      case Failure(e) => FirstUnordered(s, merged, parents[i..]) == Fail(e)
      case Success(_) => FirstUnordered(s, merged, parents[i..]) == FirstUnordered(s, merged, parents[i + 1..])
  {
    hide MergedOrder;
    assert parents[i..][1..] == parents[i + 1..];
  }

  method ReconcileSiblingOrders<V>(s: Sides<V>, merged: Records<V>) returns (result: Result<Records<V>, PatchError>)
    ensures result == Reconciled(s, merged)
  {
    hide MergedOrder, Repositioned, ReconciledFor, Elements;
    var parents := Ascending(ParentsOf(merged));
    var current := merged;
    NothingReconciled(s, merged);
    for i := 0 to |parents|
      invariant ReconciledFor(s, merged, current, parents[..i])
      invariant FirstUnordered(s, merged, parents[i..]) == FirstUnordered(s, merged, parents)
    {
      UnorderedStep(s, merged, parents, i);
      assert parents[..i + 1] == parents[..i] + [parents[i]];
      var next := ReconcileParent(s, merged, current, parents[..i], parents[i]);
      if next.Failure? {
        return Failure(next.error);
      }
      current := next.value;
    }
    assert parents[..|parents|] == parents;
    AllParentsDone(s, merged, current, parents);
    return Success(current);
  }

  lemma AllParentsDone<V>(s: Sides<V>, merged: Records<V>, current: Records<V>, parents: seq<Uuid>)
    requires Elements(parents) == ParentsOf(merged) && ReconciledFor(s, merged, current, parents)
    ensures current == map id | id in merged :: Repositioned(s, merged, id)
  {
    forall id | id in merged ensures current[id] == Repositioned(s, merged, id) {
      if merged[id].parent.Some? {
        assert merged[id].parent.value in ParentsOf(merged);
        assert merged[id].parent.value in Elements(parents);
      }
    }
  }

  // ---- Local sibling orders that cannot be represented ----

  /** Local reordered siblings that all three versions keep under this parent, and remote did not do the same. */
  predicate LocalReorders(base: seq<Uuid>, local: seq<Uuid>, remote: seq<Uuid>) {
    var shared := Elements(base) * Elements(local) * Elements(remote);
    Only(local, shared) != Only(base, shared) && Only(local, shared) != Only(remote, shared)
  }

  predicate EntriesReordered(base: FlatVault, local: FlatVault, remote: FlatVault, p: Uuid) {
    LocalReorders(ChildList(base.entries, p), ChildList(local.entries, p), ChildList(remote.entries, p))
  }

  predicate GroupsReordered(base: FlatVault, local: FlatVault, remote: FlatVault, p: Uuid) {
    LocalReorders(ChildList(base.groups, p), ChildList(local.groups, p), ChildList(remote.groups, p))
  }

  function EnsureOrders(parents: seq<Uuid>, base: FlatVault, local: FlatVault, remote: FlatVault): Outcome<PatchError> {
    if parents == [] then Pass
    else if EntriesReordered(base, local, remote, parents[0]) then Fail(SiblingOrderChange(parents[0], EntryObject))
    else if GroupsReordered(base, local, remote, parents[0]) then Fail(SiblingOrderChange(parents[0], GroupObject))
    else EnsureOrders(parents[1..], base, local, remote)
  }

  /** The check over every group of the base. */
  function EnsureLocalSiblingOrder(base: FlatVault, local: FlatVault, remote: FlatVault): Outcome<PatchError> {
    EnsureOrders(Ascending(base.groups.Keys), base, local, remote)
  }

  lemma {:induction false} EnsureOrdersIsExact(parents: seq<Uuid>, base: FlatVault, local: FlatVault, remote: FlatVault)
    ensures var r := EnsureOrders(parents, base, local, remote);
      && (r.Pass? <==> forall p :: p in parents ==>
            !EntriesReordered(base, local, remote, p) && !GroupsReordered(base, local, remote, p))
      && (r.Fail? ==> r.error.SiblingOrderChange?)
  {
    if parents != [] {
      EnsureOrdersIsExact(parents[1..], base, local, remote);
      assert parents == [parents[0]] + parents[1..];
    }
  }

  lemma EnsureLocalSiblingOrderIsExact(base: FlatVault, local: FlatVault, remote: FlatVault)
    ensures var r := EnsureLocalSiblingOrder(base, local, remote);
      && (r.Pass? <==> forall p :: p in base.groups ==>
            !EntriesReordered(base, local, remote, p) && !GroupsReordered(base, local, remote, p))
      && (r.Fail? ==> r.error.SiblingOrderChange?)
  {
    var parents := Ascending(base.groups.Keys);
    assert forall p :: p in parents <==> p in Elements(parents);
    EnsureOrdersIsExact(parents, base, local, remote);
  }
}
