/**
  Fidelity slots: the recorded order of an element's child nodes, the objects
  that own the slots of one element name, and the anchors that place opaque
  content after a named node.
 */
module FidelitySlots {
  import opened Wrappers
  import opened TextOrder

  /** The `occurrence`-th node (counting from one) named `elementName`. */
  datatype Anchor = Anchor(elementName: Text, occurrence: nat)

  datatype OpaqueXmlFragment = OpaqueXmlFragment(xml: Text, after: Option<Anchor>)

  function Count(nodes: seq<Text>, name: Text): nat {
    if nodes == [] then 0
    else Count(nodes[..|nodes| - 1], name) + if nodes[|nodes| - 1] == name then 1 else 0
  }

  /** Anchor `a` names the node at position `j`. */
  ghost predicate Names(nodes: seq<Text>, a: Anchor, j: int) {
    0 <= j < |nodes| && nodes[j] == a.elementName && Count(nodes[..j + 1], a.elementName) == a.occurrence
  }

  lemma CountPush(nodes: seq<Text>, x: Text, name: Text)
    ensures Count(nodes + [x], name) == Count(nodes, name) + if x == name then 1 else 0
  {
    assert (nodes + [x])[..|nodes|] == nodes;
  }

  lemma {:induction false} CountMonotone(nodes: seq<Text>, name: Text, i: nat, j: nat)
    requires i <= j <= |nodes|
    ensures Count(nodes[..i], name) <= Count(nodes[..j], name)
    decreases j
  {
    if i < j {
      assert nodes[..j][..j - 1] == nodes[..j - 1];
      CountMonotone(nodes, name, i, j - 1);
    }
  }

  /** An anchor names at most one node. */
  lemma NamesUnique(nodes: seq<Text>, a: Anchor, i: int, j: int)
    requires Names(nodes, a, i) && Names(nodes, a, j)
    ensures i == j
  {
    var low, high := if i < j then i else j, if i < j then j else i;
    assert nodes[..high + 1][..high] == nodes[..high];
    if low < high {
      CountMonotone(nodes, a.elementName, low + 1, high);
    }
  }

  lemma NamesExtend(nodes: seq<Text>, more: seq<Text>, a: Anchor, j: int)
    requires Names(nodes, a, j)
    ensures Names(nodes + more, a, j)
  {
    assert (nodes + more)[..j + 1] == nodes[..j + 1];
  }

  // ---- Keeping the slots whose owners survive ----

  /** What has been rebuilt after reading a prefix of the recorded nodes. */
  datatype Scan<T> = Scan(
    nodes: seq<Text>,
    tracked: seq<T>,
    replacements: seq<Option<Anchor>>,
    last: Option<Anchor>,
    slot: nat)

  function ScanNode<T(==)>(s: Scan<T>, name: Text, element: Text, tracked: seq<T>, current: set<T>): Scan<T> {
    var nodes := s.nodes + [name];
    var anchor := Some(Anchor(name, Count(nodes, name)));
    if name != element then
      Scan(nodes, s.tracked, s.replacements, anchor, s.slot)
    else if s.slot < |tracked| && tracked[s.slot] in current && tracked[s.slot] !in s.tracked then
      Scan(nodes, s.tracked + [tracked[s.slot]], s.replacements + [anchor], anchor, s.slot + 1)
    else
      Scan(s.nodes, s.tracked, s.replacements + [s.last], s.last, s.slot + 1)
  }

  function ScanSlots<T(==)>(element: Text, nodes: seq<Text>, tracked: seq<T>, current: set<T>): Scan<T> {
    if nodes == [] then Scan([], [], [], None, 0)
    else
      ScanNode(ScanSlots(element, nodes[..|nodes| - 1], tracked, current),
               nodes[|nodes| - 1], element, tracked, current)
  }

  function Retarget(anchor: Option<Anchor>, element: Text, replacements: seq<Option<Anchor>>): Option<Anchor> {
    match anchor
    case None => None
    case Some(a) =>
      if a.elementName != element then anchor
      else if 1 <= a.occurrence <= |replacements| then replacements[a.occurrence - 1]
      else None
  }

  lemma ScanPush<T>(element: Text, nodes: seq<Text>, tracked: seq<T>, current: set<T>, name: Text)
    ensures ScanSlots(element, nodes + [name], tracked, current)
         == ScanNode(ScanSlots(element, nodes, tracked, current), name, element, tracked, current)
  {
    assert (nodes + [name])[..|nodes|] == nodes;
  }

  /** After retention the owners are distinct, current, and one per remaining slot. */
  lemma {:induction false} RetainedOwners<T(!new)>(element: Text, nodes: seq<Text>, tracked: seq<T>, current: set<T>)
    ensures var s := ScanSlots(element, nodes, tracked, current);
      && (forall i, j :: 0 <= i < j < |s.tracked| ==> s.tracked[i] != s.tracked[j])
      && (forall x :: x in s.tracked ==> x in current && x in tracked)
      && Count(s.nodes, element) == |s.tracked|
      && |s.replacements| == s.slot == Count(nodes, element)
      && (forall name :: name != element ==> Count(s.nodes, name) == Count(nodes, name))
  {
    if nodes != [] {
      var prefix, name := nodes[..|nodes| - 1], nodes[|nodes| - 1];
      RetainedOwners(element, prefix, tracked, current);
      var s := ScanSlots(element, prefix, tracked, current);
      forall n ensures Count(s.nodes + [name], n) == Count(s.nodes, n) + if name == n then 1 else 0 {
        CountPush(s.nodes, name, n);
      }
    }
  }

  /** The first occurrences of what is current. */
  function FirstCurrent<T(==)>(tracked: seq<T>, current: set<T>): seq<T> {
    if tracked == [] then []
    else
      var kept, last := FirstCurrent(tracked[..|tracked| - 1], current), tracked[|tracked| - 1];
      if last in current && last !in kept then kept + [last] else kept
  }

  /** The nodes of other names. */
  function Others(nodes: seq<Text>, name: Text): seq<Text> {
    if nodes == [] then []
    else Others(nodes[..|nodes| - 1], name) + if nodes[|nodes| - 1] != name then [nodes[|nodes| - 1]] else []
  }

  lemma OthersPush(nodes: seq<Text>, x: Text, name: Text)
    ensures Others(nodes + [x], name) == Others(nodes, name) + if x != name then [x] else []
  {
    assert (nodes + [x])[..|nodes|] == nodes;
  }

  lemma FirstCurrentPush<T>(tracked: seq<T>, k: nat, current: set<T>)
    requires k < |tracked|
    ensures var kept := FirstCurrent(tracked[..k], current);
      FirstCurrent(tracked[..k + 1], current)
        == if tracked[k] in current && tracked[k] !in kept then kept + [tracked[k]] else kept
  {
    assert tracked[..k + 1][..k] == tracked[..k];
  }

  /** Of the owners that have a node, the current ones are retained once each, in order; nodes of other names stay. */
  lemma {:induction false} RetainedExactly<T(!new)>(element: Text, nodes: seq<Text>, tracked: seq<T>, current: set<T>)
    ensures var s, n := ScanSlots(element, nodes, tracked, current), Count(nodes, element);
      && s.slot == n && Others(s.nodes, element) == Others(nodes, element)
      && s.tracked == FirstCurrent(tracked[..if n < |tracked| then n else |tracked|], current)
  {
    if nodes != [] {
      var prefix, name := nodes[..|nodes| - 1], nodes[|nodes| - 1];
      RetainedExactly(element, prefix, tracked, current);
      var s := ScanSlots(element, prefix, tracked, current);
      OthersPush(s.nodes, name, element);
      if name == element && s.slot < |tracked| {
        FirstCurrentPush(tracked, s.slot, current);
      }
    }
  }

  /** The last anchor names the last rebuilt node. */
  lemma {:induction false} LastNamesLast<T>(element: Text, nodes: seq<Text>, tracked: seq<T>, current: set<T>)
    ensures var s := ScanSlots(element, nodes, tracked, current);
      && (s.last.None? <==> s.nodes == [])
      && (s.last.Some? ==> Names(s.nodes, s.last.value, |s.nodes| - 1))
  {
    if nodes != [] {
      LastNamesLast(element, nodes[..|nodes| - 1], tracked, current);
      var s := ScanSlots(element, nodes, tracked, current);
      assert s.nodes[..|s.nodes|] == s.nodes;
    }
  }

  /** Rebuilding never revises what an earlier prefix produced. */
  lemma {:induction false} ScanGrows<T>(element: Text, nodes: seq<Text>, tracked: seq<T>, current: set<T>, k: nat)
    requires k <= |nodes|
    ensures ScanSlots(element, nodes[..k], tracked, current).nodes <= ScanSlots(element, nodes, tracked, current).nodes
    ensures ScanSlots(element, nodes[..k], tracked, current).replacements
         <= ScanSlots(element, nodes, tracked, current).replacements
  {
    if k < |nodes| {
      var prefix := nodes[..|nodes| - 1];
      ScanGrows(element, prefix, tracked, current, k);
      assert prefix[..k] == nodes[..k];
    } else {
      assert nodes[..k] == nodes;
    }
  }

  /** How many of the first `j + 1` recorded nodes are rebuilt. */
  ghost function KeptThrough<T>(element: Text, nodes: seq<Text>, tracked: seq<T>, current: set<T>, j: nat): nat
    requires j < |nodes|
  {
    |ScanSlots(element, nodes[..j + 1], tracked, current).nodes|
  }

  /** A recorded node survives unless it is a slot whose owner is dropped. */
  ghost predicate Kept<T>(element: Text, nodes: seq<Text>, tracked: seq<T>, current: set<T>, j: nat)
    requires j < |nodes|
  {
    var before := ScanSlots(element, nodes[..j], tracked, current);
    nodes[j] != element
    || (before.slot < |tracked| && tracked[before.slot] in current && tracked[before.slot] !in before.tracked)
  }

  lemma KeptCounts<T>(element: Text, nodes: seq<Text>, tracked: seq<T>, current: set<T>, j: nat)
    requires j < |nodes|
    ensures var rebuilt := ScanSlots(element, nodes, tracked, current).nodes;
      var before := |ScanSlots(element, nodes[..j], tracked, current).nodes|;
      && KeptThrough(element, nodes, tracked, current, j)
         == before + (if Kept(element, nodes, tracked, current, j) then 1 else 0)
      && KeptThrough(element, nodes, tracked, current, j) <= |rebuilt|
      && (Kept(element, nodes, tracked, current, j) ==> rebuilt[before] == nodes[j])
  {
    assert nodes[..j + 1] == nodes[..j] + [nodes[j]];
    ScanPush(element, nodes[..j], tracked, current, nodes[j]);
    ScanGrows(element, nodes, tracked, current, j + 1);
  }

  /** Reading on never moves what the last anchor of a prefix names. */
  lemma LastStillNames<T(!new)>(element: Text, nodes: seq<Text>, tracked: seq<T>, current: set<T>, k: nat)
    requires k <= |nodes|
    ensures var here := ScanSlots(element, nodes[..k], tracked, current);
      var whole := ScanSlots(element, nodes, tracked, current);
      && (here.last.None? <==> |here.nodes| == 0)
      && (here.last.Some? ==> Names(whole.nodes, here.last.value, |here.nodes| - 1))
  {
    var here := ScanSlots(element, nodes[..k], tracked, current);
    var whole := ScanSlots(element, nodes, tracked, current);
    LastNamesLast(element, nodes[..k], tracked, current);
    ScanGrows(element, nodes, tracked, current, k);
    if here.last.Some? {
      NamesExtend(here.nodes, whole.nodes[|here.nodes|..], here.last.value, |here.nodes| - 1);
      assert whole.nodes == here.nodes + whole.nodes[|here.nodes|..];
    }
  }

  /** Retargeting sends the anchor of the node at `j` to the last anchor written by then. */
  lemma RetargetIsLast<T(!new)>(element: Text, nodes: seq<Text>, tracked: seq<T>, current: set<T>, a: Anchor, j: nat)
    requires Names(nodes, a, j)
    ensures Retarget(Some(a), element, ScanSlots(element, nodes, tracked, current).replacements)
         == ScanSlots(element, nodes[..j + 1], tracked, current).last
  {
    var here := ScanSlots(element, nodes[..j + 1], tracked, current);
    assert nodes[..j + 1] == nodes[..j] + [nodes[j]];
    ScanPush(element, nodes[..j], tracked, current, nodes[j]);
    RetainedOwners(element, nodes[..j + 1], tracked, current);
    if a.elementName == element {
      ScanGrows(element, nodes, tracked, current, j + 1);
      assert here.replacements[a.occurrence - 1] == here.last;
    }
  }

  /**
    An anchor that named the node at position `j` afterwards names the last
    surviving node at or before `j`: the node itself when it survives, else its
    nearest surviving predecessor, and nothing when there is none.
   */
  lemma AnchorFollowsNode<T(!new)>(element: Text, nodes: seq<Text>, tracked: seq<T>, current: set<T>, a: Anchor, j: nat)
    requires Names(nodes, a, j)
    ensures var s := ScanSlots(element, nodes, tracked, current);
      var kept := KeptThrough(element, nodes, tracked, current, j);
      var moved := Retarget(Some(a), element, s.replacements);
      && (moved.None? <==> kept == 0)
      && (moved.Some? ==> Names(s.nodes, moved.value, kept - 1))
  {
    RetargetIsLast(element, nodes, tracked, current, a, j);
    LastStillNames(element, nodes, tracked, current, j + 1);
  }

  /** An anchor at the element that named no node is dropped; other names never change. */
  lemma DanglingAnchor<T(!new)>(element: Text, nodes: seq<Text>, tracked: seq<T>, current: set<T>, a: Anchor)
    ensures var moved := Retarget(Some(a), element, ScanSlots(element, nodes, tracked, current).replacements);
      && (a.elementName != element ==> moved == Some(a))
      && (a.elementName == element && (forall j :: !Names(nodes, a, j)) ==> moved == None)
  {
    RetainedOwners(element, nodes, tracked, current);
    if a.elementName == element && 1 <= a.occurrence <= Count(nodes, element) {
      var j := NodeAt(nodes, a);
    }
  }

  lemma {:induction false} NodeAt(nodes: seq<Text>, a: Anchor) returns (j: nat)
    requires 1 <= a.occurrence <= Count(nodes, a.elementName)
    ensures Names(nodes, a, j)
  {
    var n := |nodes| - 1;
    if nodes[n] == a.elementName && a.occurrence == Count(nodes, a.elementName) {
      assert nodes[..n + 1] == nodes;
      j := n;
    } else {
      j := NodeAt(nodes[..n], a);
      assert nodes[..n] + [nodes[n]] == nodes;
      NamesExtend(nodes[..n], [nodes[n]], a, j);
    }
  }

  // ---- Removing every node of one name ----

  datatype Removal = Removal(nodes: seq<Text>, replacements: seq<Option<Anchor>>, predecessor: Option<Anchor>)

  function RemoveNodes(nodes: seq<Text>, element: Text): Removal {
    if nodes == [] then Removal([], [], None)
    else
      var r := RemoveNodes(nodes[..|nodes| - 1], element);
      var name := nodes[|nodes| - 1];
      if name == element then Removal(r.nodes, r.replacements + [r.predecessor], r.predecessor)
      else Removal(r.nodes + [name], r.replacements, Some(Anchor(name, Count(r.nodes + [name], name))))
  }

  /** Removing an element outright is retention with nothing left to keep. */
  lemma {:induction false} RemovalIsEmptyRetention<T>(element: Text, nodes: seq<Text>, tracked: seq<T>)
    ensures var s := ScanSlots(element, nodes, tracked, {});
      RemoveNodes(nodes, element) == Removal(s.nodes, s.replacements, s.last)
  {
    if nodes != [] {
      RemovalIsEmptyRetention(element, nodes[..|nodes| - 1], tracked);
    }
  }

  /** After removal the element names no node, and every other node keeps its place among the others. */
  lemma {:induction false} RemovalLeavesNone(nodes: seq<Text>, element: Text)
    ensures element !in RemoveNodes(nodes, element).nodes
    ensures forall name :: name in RemoveNodes(nodes, element).nodes <==> name in nodes && name != element
  {
    if nodes != [] {
      RemovalLeavesNone(nodes[..|nodes| - 1], element);
      assert nodes == nodes[..|nodes| - 1] + [nodes[|nodes| - 1]];
    }
  }

  // ---- The in-place forms ----

  /** The counters say how often each name occurs among the nodes. */
  ghost predicate Counted(counts: map<Text, nat>, nodes: seq<Text>) {
    forall n :: (if n in counts then counts[n] else 0) == Count(nodes, n)
  }

  lemma NothingCounted()
    ensures Counted(map[], [])
  {
  }

  method BumpCount(counts: map<Text, nat>, name: Text, ghost nodes: seq<Text>) returns (bumped: map<Text, nat>)
    requires Counted(counts, nodes)
    ensures Counted(bumped, nodes + [name])
    ensures name in bumped && bumped[name] == Count(nodes + [name], name)
  {
    bumped := counts[name := (if name in counts then counts[name] else 0) + 1];
    forall n ensures Count(nodes + [name], n) == Count(nodes, n) + if name == n then 1 else 0 {
      CountPush(nodes, name, n);
    }
  }

  method RetainTrackedSlots<T(==)>(element: Text, nodeOrder: seq<Text>, tracked: seq<T>, current: set<T>)
    returns (nodes: seq<Text>, owners: seq<T>, replacements: seq<Option<Anchor>>)
    ensures var s := ScanSlots(element, nodeOrder, tracked, current);
      nodes == s.nodes && owners == s.tracked && replacements == s.replacements
  {
    nodes, owners, replacements := [], [], [];
    var retained: set<T> := {};
    var counts: map<Text, nat> := map[];
    var lastAnchor: Option<Anchor> := None;
    var slot := 0;
    NothingCounted();
    hide Counted, Count;
    for i := 0 to |nodeOrder|
      invariant Scan(nodes, owners, replacements, lastAnchor, slot)
             == ScanSlots(element, nodeOrder[..i], tracked, current)
      invariant forall x :: x in retained <==> x in owners
      invariant Counted(counts, nodes)
    {
      var name := nodeOrder[i];
      assert nodeOrder[..i + 1] == nodeOrder[..i] + [name];
      ScanPush(element, nodeOrder[..i], tracked, current, name);
      if name == element {
        var owned := slot < |tracked| && tracked[slot] in current && tracked[slot] !in retained;
        if owned {
          retained := retained + {tracked[slot]};
          counts := BumpCount(counts, name, nodes);
          nodes, owners := nodes + [name], owners + [tracked[slot]];
          lastAnchor := Some(Anchor(name, counts[name]));
        }
        slot := slot + 1;
        replacements := replacements + [lastAnchor];
      } else {
        counts := BumpCount(counts, name, nodes);
        nodes := nodes + [name];
        lastAnchor := Some(Anchor(name, counts[name]));
      }
    }
    assert nodeOrder[..|nodeOrder|] == nodeOrder;
  }

  method RemoveKnownNodes(nodeOrder: seq<Text>, element: Text)
    returns (nodes: seq<Text>, replacements: seq<Option<Anchor>>)
    ensures nodes == RemoveNodes(nodeOrder, element).nodes
    ensures replacements == RemoveNodes(nodeOrder, element).replacements
  {
    nodes, replacements := [], [];
    var counts: map<Text, nat> := map[];
    var predecessor: Option<Anchor> := None;
    NothingCounted();
    hide Counted;
    for i := 0 to |nodeOrder|
      invariant Removal(nodes, replacements, predecessor) == RemoveNodes(nodeOrder[..i], element)
      invariant Counted(counts, nodes)
    {
      var name := nodeOrder[i];
      assert nodeOrder[..i + 1][..i] == nodeOrder[..i];
      if name == element {
        replacements := replacements + [predecessor];
      } else {
        counts := BumpCount(counts, name, nodes);
        nodes := nodes + [name];
        predecessor := Some(Anchor(name, counts[name]));
      }
    }
    assert nodeOrder[..|nodeOrder|] == nodeOrder;
  }

  function RetargetFragments(fragments: seq<OpaqueXmlFragment>, element: Text, replacements: seq<Option<Anchor>>)
    : seq<OpaqueXmlFragment>
  {
    seq(|fragments|, i requires 0 <= i < |fragments| =>
      fragments[i].(after := Retarget(fragments[i].after, element, replacements)))
  }
}
