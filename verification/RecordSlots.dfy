/** What dropping stale slots leaves of a record: its nodes, the owners of its slots, its opaque content and its blocks. */
module RecordSlots {
  import opened Wrappers
  import opened IdOrder
  import opened TextOrder
  import opened FidelitySlots
  import opened Model
  import opened Normalize
  import Attributes
  import CustomData
  import Blocks = CustomDataBlocks

  // ---- Nodes ----

  /** The nodes whose names are not in the set. */
  function Beside(nodes: seq<Text>, names: set<Text>): seq<Text> {
    if nodes == [] then []
    else
      Beside(nodes[..|nodes| - 1], names) + if nodes[|nodes| - 1] !in names then [nodes[|nodes| - 1]] else []
  }

  lemma BesidePush(nodes: seq<Text>, x: Text, names: set<Text>)
    ensures Beside(nodes + [x], names) == Beside(nodes, names) + if x !in names then [x] else []
  {
    assert (nodes + [x])[..|nodes|] == nodes;
  }

  lemma {:induction false} BesideOthers(nodes: seq<Text>, name: Text, names: set<Text>)
    requires name in names
    ensures Beside(Others(nodes, name), names) == Beside(nodes, names)
  {
    if nodes != [] {
      var init, last := nodes[..|nodes| - 1], nodes[|nodes| - 1];
      BesideOthers(init, name, names);
      if last != name {
        BesidePush(Others(init, name), last, names);
      } else {
        assert Others(init, name) + [] == Others(init, name);
        assert Beside(init, names) + [] == Beside(init, names);
      }
    }
  }

  lemma {:induction false} CountOthers(nodes: seq<Text>, name: Text, other: Text)
    requires other != name
    ensures Count(Others(nodes, name), other) == Count(nodes, other)
  {
    if nodes != [] {
      var init, last := nodes[..|nodes| - 1], nodes[|nodes| - 1];
      CountOthers(init, name, other);
      if last != name {
        CountPush(Others(init, name), last, other);
      } else {
        assert Others(init, name) + [] == Others(init, name);
      }
    }
  }

  // ---- Owners, fragments, blocks ----

  /** The owners that have a node. */
  function Owned<T>(nodes: seq<Text>, name: Text, owners: seq<T>): seq<T> {
    owners[..if Count(nodes, name) < |owners| then Count(nodes, name) else |owners|]
  }

  /** The same fragments in the same order; only what they follow may differ. */
  ghost predicate SameXml(a: seq<OpaqueXmlFragment>, b: seq<OpaqueXmlFragment>) {
    |a| == |b| && forall i :: 0 <= i < |a| ==> a[i].xml == b[i].xml
  }

  ghost predicate SameBlocks(a: seq<CustomData.Block>, b: seq<CustomData.Block>) {
    |a| == |b| && forall i :: 0 <= i < |a| ==> a[i].items == b[i].items
  }

  /** Of the owners with a node the current ones have one each, in their order, and nodes of other names stay. */
  ghost predicate SlotsKept<T(!new)>(name: Text, before: seq<Text>, owners: seq<T>, after: seq<Text>, kept: seq<T>, current: set<T>) {
    && kept == FirstCurrent(Owned(before, name, owners), current)
    && Count(after, name) == |kept|
    && Others(after, name) == Others(before, name)
  }

  // ---- Anchors ----

  /** The node at `i` stays: it has another name, or its owner is current and owns no earlier slot. */
  ghost predicate KeepsNode<T(!new)>(element: Text, nodes: seq<Text>, owners: seq<T>, current: set<T>, i: nat)
    requires i < |nodes|
  {
    nodes[i] != element ||
      var n := Count(nodes[..i], element);
      n < |owners| && owners[n] in current && owners[n] !in owners[..n]
  }

  /** How many of the first `n` nodes stay. */
  ghost function NodesKept<T(!new)>(element: Text, nodes: seq<Text>, owners: seq<T>, current: set<T>, n: nat): nat
    requires n <= |nodes|
  {
    if n == 0 then 0
    else NodesKept(element, nodes, owners, current, n - 1) + if KeepsNode(element, nodes, owners, current, n - 1) then 1 else 0
  }

  /** An anchor names the same node, else the nearest one before it that stays, else nothing. */
  ghost predicate Reanchored<T(!new)>(element: Text, nodes: seq<Text>, owners: seq<T>, current: set<T>, after: seq<Text>,
                                      a: Option<Anchor>, b: Option<Anchor>) {
    if a.None? then b == None
    else if a.value.elementName != element then b == a
    else if NamesNone(nodes, a.value) then b == None
    else forall j {:trigger Names(nodes, a.value, j)} :: Names(nodes, a.value, j) ==>
      var kept := NodesKept(element, nodes, owners, current, j + 1);
      (b.None? <==> kept == 0) && (b.Some? ==> Names(after, b.value, kept - 1))
  }

  ghost predicate NamesNone(nodes: seq<Text>, a: Anchor) {
    forall j :: !Names(nodes, a, j)
  }

  /** Which owners of the slots read so far were taken. */
  lemma {:induction false} TakenOwners<T(!new)>(owners: seq<T>, current: set<T>, n: nat)
    requires n <= |owners|
    ensures forall x :: x in FirstCurrent(owners[..n], current) <==> x in owners[..n] && x in current
  {
    if n > 0 {
      TakenOwners(owners, current, n - 1);
      FirstCurrentPush(owners, n - 1, current);
      assert owners[..n] == owners[..n - 1] + [owners[n - 1]];
    } else {
      assert owners[..0] == [];
    }
  }

  lemma {:induction false} ScannedNodes<T(!new)>(element: Text, nodes: seq<Text>, owners: seq<T>, current: set<T>, n: nat)
    requires n <= |nodes|
    ensures |ScanSlots(element, nodes[..n], owners, current).nodes| == NodesKept(element, nodes, owners, current, n)
  {
    if n == 0 {
      assert nodes[..0] == [];
    } else {
      var before := nodes[..n - 1];
      assert nodes[..n] == before + [nodes[n - 1]];
      ScannedNodes(element, nodes, owners, current, n - 1);
      ScanPush(element, before, owners, current, nodes[n - 1]);
      RetainedExactly(element, before, owners, current);
      var slot := Count(before, element);
      if slot < |owners| {
        TakenOwners(owners, current, slot);
      }
      hide ScanSlots, FirstCurrent, Count, Others;
    }
  }

  lemma RetargetedAnchor<T(!new)>(element: Text, nodes: seq<Text>, owners: seq<T>, current: set<T>, a: Option<Anchor>)
    ensures var s := ScanSlots(element, nodes, owners, current);
      Reanchored(element, nodes, owners, current, s.nodes, a, Retarget(a, element, s.replacements))
  {
    hide ScanSlots, Retarget, NodesKept;
    var s := ScanSlots(element, nodes, owners, current);
    NoAnchor(element, s.replacements);
    if a.Some? {
      DanglingAnchor(element, nodes, owners, current, a.value);
      forall j | 0 <= j < |nodes| && Names(nodes, a.value, j) && a.value.elementName == element
        ensures var kept := NodesKept(element, nodes, owners, current, j + 1);
          var b := Retarget(a, element, s.replacements);
          (b.None? <==> kept == 0) && (b.Some? ==> Names(s.nodes, b.value, kept - 1))
      {
        AnchorFollowsNode(element, nodes, owners, current, a.value, j);
        ScannedNodes(element, nodes, owners, current, j + 1);
      }
    }
  }

  lemma NoAnchor(element: Text, replacements: seq<Option<Anchor>>)
    ensures Retarget(None, element, replacements) == None
  {
  }

  lemma RetainedKeeps<T(!new)>(element: Text, s: Slots<T>, current: set<T>)
    ensures var r := Retained(element, s, current);
      && SlotsKept(element, s.nodeOrder, s.tracked, r.nodeOrder, r.tracked, current)
      && SameXml(r.opaqueXml, s.opaqueXml) && SameBlocks(r.blocks, s.blocks)
      && (forall i :: 0 <= i < |s.opaqueXml| ==>
            Reanchored(element, s.nodeOrder, s.tracked, current, r.nodeOrder, s.opaqueXml[i].after, r.opaqueXml[i].after))
      && (forall i :: 0 <= i < |s.blocks| ==>
            Reanchored(element, s.nodeOrder, s.tracked, current, r.nodeOrder, s.blocks[i].after, r.blocks[i].after))
  {
    RetainedExactly(element, s.nodeOrder, s.tracked, current);
    RetainedOwners(element, s.nodeOrder, s.tracked, current);
    hide ScanSlots, FirstCurrent, Count, Others, Retarget, Reanchored;
    var scan := ScanSlots(element, s.nodeOrder, s.tracked, current);
    forall a ensures Reanchored(element, s.nodeOrder, s.tracked, current, scan.nodes, a, Retarget(a, element, scan.replacements)) {
      RetargetedAnchor(element, s.nodeOrder, s.tracked, current, a);
    }
  }

  /** A second retention, of another name, sees the nodes of the first as they were. */
  lemma SecondKeeps<S(!new), T(!new)>(first: Text, second: Text, n0: seq<Text>, a: seq<S>, n1: seq<Text>, keptA: seq<S>, live: set<S>,
                                      b: seq<T>, n2: seq<Text>, keptB: seq<T>, liveToo: set<T>, names: set<Text>)
    requires first != second && first in names && second in names
    requires SlotsKept(first, n0, a, n1, keptA, live) && SlotsKept(second, n1, b, n2, keptB, liveToo)
    ensures keptB == FirstCurrent(Owned(n0, second, b), liveToo)
    ensures Count(n2, first) == |keptA| && Beside(n2, names) == Beside(n0, names)
  {
    CountOthers(n0, first, second);
    CountOthers(n1, first, second);
    CountOthers(n1, second, first);
    CountOthers(n2, second, first);
    BesideOthers(n0, first, names);
    BesideOthers(n1, first, names);
    BesideOthers(n1, second, names);
    BesideOthers(n2, second, names);
    hide Count, Others, Beside, FirstCurrent;
  }

  // ---- Entries ----

  const STRING_NODE: Text := "String"
  const BINARY_NODE: Text := "Binary"
  const DATA_NODE: Text := "CustomData"
  const ENTRY_NODE: Text := "Entry"
  const GROUP_NODE: Text := "Group"

  ghost predicate IsStandardField(name: Text) {
    name == "Title" || name == "UserName" || name == "Password" || name == "URL" || name == "Notes"
  }

  /** The field is a standard one or an attribute of the view. */
  ghost predicate ShownFields(names: set<Text>, attributes: set<Text>) {
    forall name :: name in names <==> IsStandardField(name) || name in attributes
  }

  /** One string slot for every field that is shown and has a node, one binary slot for every attachment that has one. */
  ghost predicate EntrySlotsKept(before: EntryRawState, after: EntryRawState, attributes: set<Text>, files: set<Text>) {
    && (exists names: set<Text> :: ShownFields(names, attributes)
          && after.stringOrder == FirstCurrent(Owned(before.nodeOrder, STRING_NODE, before.stringOrder), names))
    && after.binaryOrder == FirstCurrent(Owned(before.nodeOrder, BINARY_NODE, before.binaryOrder), files)
    && Count(after.nodeOrder, STRING_NODE) == |after.stringOrder| && Count(after.nodeOrder, BINARY_NODE) == |after.binaryOrder|
    && Beside(after.nodeOrder, {STRING_NODE, BINARY_NODE, DATA_NODE}) == Beside(before.nodeOrder, {STRING_NODE, BINARY_NODE, DATA_NODE})
    && after.hasHistoryNode == before.hasHistoryNode
  }

  lemma StandardShown(attributes: set<Text>)
    ensures ShownFields(STANDARD_FIELDS + attributes, attributes)
  {
  }

  lemma NodeNames()
    ensures STRING == STRING_NODE && BINARY == BINARY_NODE && ENTRY == ENTRY_NODE && GROUP == GROUP_NODE
    ensures CustomData.CUSTOM_DATA == DATA_NODE
    ensures STRING_NODE != BINARY_NODE && ENTRY_NODE != GROUP_NODE && DATA_NODE != STRING_NODE && DATA_NODE != BINARY_NODE
    ensures DATA_NODE != ENTRY_NODE && DATA_NODE != GROUP_NODE
  {
    assert STRING_NODE[0] == 'S' && BINARY_NODE[0] == 'B' && ENTRY_NODE[0] == 'E' && GROUP_NODE[0] == 'G' && DATA_NODE[0] == 'C';
  }

  /** An anchor followed through two retentions. */
  ghost predicate ReanchoredTwice<S(!new), T(!new)>(
    first: Text, before: seq<Text>, a: seq<S>, liveA: set<S>, nodes: seq<Text>,
    second: Text, b: seq<T>, liveB: set<T>, after: seq<Text>, x: Option<Anchor>, y: Option<Anchor>)
  {
    exists mid :: Reanchored(first, before, a, liveA, nodes, x, mid) && Reanchored(second, nodes, b, liveB, after, mid, y)
  }

  /** Opaque content and blocks stay with the nodes they follow, string nodes first. */
  ghost predicate EntryAnchorsKept(before: EntryRawState, after: EntryRawState, attributes: set<Text>, files: set<Text>,
                                   xml: seq<OpaqueXmlFragment>, xmlAfter: seq<OpaqueXmlFragment>,
                                   blocks: seq<CustomData.Block>, blocksAfter: seq<CustomData.Block>) {
    && SameXml(xmlAfter, xml) && SameBlocks(blocksAfter, blocks)
    && exists names: set<Text>, nodes: seq<Text> ::
        ShownFields(names, attributes)
        && SlotsKept(STRING_NODE, before.nodeOrder, before.stringOrder, nodes, after.stringOrder, names)
        && (forall i :: 0 <= i < |xml| ==>
              ReanchoredTwice(STRING_NODE, before.nodeOrder, before.stringOrder, names, nodes, BINARY_NODE, before.binaryOrder, files,
                              after.nodeOrder, xml[i].after, xmlAfter[i].after))
        && (forall i :: 0 <= i < |blocks| ==>
              ReanchoredTwice(STRING_NODE, before.nodeOrder, before.stringOrder, names, nodes, BINARY_NODE, before.binaryOrder, files,
                              after.nodeOrder, blocks[i].after, blocksAfter[i].after))
  }

  ghost predicate GroupAnchorsKept(before: GroupRawState, after: GroupRawState, entries: set<Uuid>, groups: set<Uuid>,
                                   xml: seq<OpaqueXmlFragment>, xmlAfter: seq<OpaqueXmlFragment>,
                                   blocks: seq<CustomData.Block>, blocksAfter: seq<CustomData.Block>) {
    && SameXml(xmlAfter, xml) && SameBlocks(blocksAfter, blocks)
    && exists nodes: seq<Text> ::
        SlotsKept(ENTRY_NODE, before.nodeOrder, before.entryOrder, nodes, after.entryOrder, entries)
        && (forall i :: 0 <= i < |xml| ==>
              ReanchoredTwice(ENTRY_NODE, before.nodeOrder, before.entryOrder, entries, nodes, GROUP_NODE, before.groupOrder, groups,
                              after.nodeOrder, xml[i].after, xmlAfter[i].after))
        && (forall i :: 0 <= i < |blocks| ==>
              ReanchoredTwice(ENTRY_NODE, before.nodeOrder, before.entryOrder, entries, nodes, GROUP_NODE, before.groupOrder, groups,
                              after.nodeOrder, blocks[i].after, blocksAfter[i].after))
  }

  lemma TwiceReanchored<S(!new), T(!new)>(first: Text, before: seq<Text>, a: seq<S>, liveA: set<S>, nodes: seq<Text>,
                                          second: Text, b: seq<T>, liveB: set<T>, after: seq<Text>,
                                          x: Option<Anchor>, mid: Option<Anchor>, y: Option<Anchor>)
    requires Reanchored(first, before, a, liveA, nodes, x, mid) && Reanchored(second, nodes, b, liveB, after, mid, y)
    ensures ReanchoredTwice(first, before, a, liveA, nodes, second, b, liveB, after, x, y)
  {
  }

  lemma EntryAnchored(e: Entry, names: set<Text>, s: Slots<Text>, b: Slots<Text>)
    requires ShownFields(names, Attributes.Materialize(e).fields.Keys)
    requires s == Retained(STRING_NODE, Slots(e.rawState.nodeOrder, e.rawState.stringOrder, e.opaqueXml, e.customDataBlocks), names)
    requires b == Retained(BINARY_NODE, Slots(s.nodeOrder, e.rawState.binaryOrder, s.opaqueXml, s.blocks), e.attachments.Keys)
    ensures EntryAnchorsKept(e.rawState, EntryRawState(b.nodeOrder, s.tracked, b.tracked, e.rawState.hasHistoryNode),
                             Attributes.Materialize(e).fields.Keys, e.attachments.Keys, e.opaqueXml, b.opaqueXml,
                             e.customDataBlocks, b.blocks)
  {
    hide Retained, Attributes.Materialize, FirstCurrent, Count, Others, Reanchored, ReanchoredTwice, ShownFields;
    var first := Slots(e.rawState.nodeOrder, e.rawState.stringOrder, e.opaqueXml, e.customDataBlocks);
    var second := Slots(s.nodeOrder, e.rawState.binaryOrder, s.opaqueXml, s.blocks);
    RetainedKeeps(STRING_NODE, first, names);
    RetainedKeeps(BINARY_NODE, second, e.attachments.Keys);
    forall i | 0 <= i < |e.opaqueXml|
      ensures ReanchoredTwice(STRING_NODE, e.rawState.nodeOrder, e.rawState.stringOrder, names, s.nodeOrder, BINARY_NODE,
                              e.rawState.binaryOrder, e.attachments.Keys, b.nodeOrder, e.opaqueXml[i].after, b.opaqueXml[i].after)
    {
      TwiceReanchored(STRING_NODE, e.rawState.nodeOrder, e.rawState.stringOrder, names, s.nodeOrder, BINARY_NODE,
                      e.rawState.binaryOrder, e.attachments.Keys, b.nodeOrder,
                      e.opaqueXml[i].after, s.opaqueXml[i].after, b.opaqueXml[i].after);
    }
    forall i | 0 <= i < |e.customDataBlocks|
      ensures ReanchoredTwice(STRING_NODE, e.rawState.nodeOrder, e.rawState.stringOrder, names, s.nodeOrder, BINARY_NODE,
                              e.rawState.binaryOrder, e.attachments.Keys, b.nodeOrder, e.customDataBlocks[i].after, b.blocks[i].after)
    {
      TwiceReanchored(STRING_NODE, e.rawState.nodeOrder, e.rawState.stringOrder, names, s.nodeOrder, BINARY_NODE,
                      e.rawState.binaryOrder, e.attachments.Keys, b.nodeOrder,
                      e.customDataBlocks[i].after, s.blocks[i].after, b.blocks[i].after);
    }
  }

  lemma GroupAnchored(g: Group, e: Slots<Uuid>, c: Slots<Uuid>, entries: set<Uuid>, groups: set<Uuid>)
    requires e == Retained(ENTRY_NODE, Slots(g.rawState.nodeOrder, g.rawState.entryOrder, g.opaqueXml, g.customDataBlocks), entries)
    requires c == Retained(GROUP_NODE, Slots(e.nodeOrder, g.rawState.groupOrder, e.opaqueXml, e.blocks), groups)
    ensures GroupAnchorsKept(g.rawState, GroupRawState(c.nodeOrder, e.tracked, c.tracked), entries, groups,
                             g.opaqueXml, c.opaqueXml, g.customDataBlocks, c.blocks)
  {
    hide Retained, FirstCurrent, Count, Others, Reanchored, ReanchoredTwice;
    var first := Slots(g.rawState.nodeOrder, g.rawState.entryOrder, g.opaqueXml, g.customDataBlocks);
    var second := Slots(e.nodeOrder, g.rawState.groupOrder, e.opaqueXml, e.blocks);
    RetainedKeeps(ENTRY_NODE, first, entries);
    RetainedKeeps(GROUP_NODE, second, groups);
    forall i | 0 <= i < |g.opaqueXml|
      ensures ReanchoredTwice(ENTRY_NODE, g.rawState.nodeOrder, g.rawState.entryOrder, entries, e.nodeOrder, GROUP_NODE,
                              g.rawState.groupOrder, groups, c.nodeOrder, g.opaqueXml[i].after, c.opaqueXml[i].after)
    {
      TwiceReanchored(ENTRY_NODE, g.rawState.nodeOrder, g.rawState.entryOrder, entries, e.nodeOrder, GROUP_NODE,
                      g.rawState.groupOrder, groups, c.nodeOrder, g.opaqueXml[i].after, e.opaqueXml[i].after, c.opaqueXml[i].after);
    }
    forall i | 0 <= i < |g.customDataBlocks|
      ensures ReanchoredTwice(ENTRY_NODE, g.rawState.nodeOrder, g.rawState.entryOrder, entries, e.nodeOrder, GROUP_NODE,
                              g.rawState.groupOrder, groups, c.nodeOrder, g.customDataBlocks[i].after, c.blocks[i].after)
    {
      TwiceReanchored(ENTRY_NODE, g.rawState.nodeOrder, g.rawState.entryOrder, entries, e.nodeOrder, GROUP_NODE,
                      g.rawState.groupOrder, groups, c.nodeOrder,
                      g.customDataBlocks[i].after, e.blocks[i].after, c.blocks[i].after);
    }
  }

  /** Dropping an entry's stale slots touches nothing else. */
  lemma NormalizedEntry(e: Entry)
    ensures var n := NormalizeEntrySlots(e);
      && EntrySlotsKept(e.rawState, n.rawState, Attributes.Materialize(e).fields.Keys, e.attachments.Keys)
      && EntryAnchorsKept(e.rawState, n.rawState, Attributes.Materialize(e).fields.Keys, e.attachments.Keys,
                          e.opaqueXml, n.opaqueXml, e.customDataBlocks, n.customDataBlocks)
      && SameXml(n.opaqueXml, e.opaqueXml) && SameBlocks(n.customDataBlocks, e.customDataBlocks)
      && n == e.(rawState := n.rawState, opaqueXml := n.opaqueXml, customDataBlocks := n.customDataBlocks)
  {
    hide Retained, Attributes.Materialize, FirstCurrent, Count, Others, Beside, EntryAnchorsKept, Reanchored;
    NodeNames();
    var fields := Attributes.Materialize(e).fields.Keys;
    StandardShown(fields);
    var first := Slots(e.rawState.nodeOrder, e.rawState.stringOrder, e.opaqueXml, e.customDataBlocks);
    var s := Retained(STRING, first, STANDARD_FIELDS + fields);
    RetainedKeeps(STRING, first, STANDARD_FIELDS + fields);
    var second := Slots(s.nodeOrder, e.rawState.binaryOrder, s.opaqueXml, s.blocks);
    var b := Retained(BINARY, second, e.attachments.Keys);
    RetainedKeeps(BINARY, second, e.attachments.Keys);
    SecondKeeps(STRING, BINARY, e.rawState.nodeOrder, e.rawState.stringOrder, s.nodeOrder, s.tracked, STANDARD_FIELDS + fields,
                e.rawState.binaryOrder, b.nodeOrder, b.tracked, e.attachments.Keys, {STRING_NODE, BINARY_NODE, DATA_NODE});
    EntryAnchored(e, STANDARD_FIELDS + fields, s, b);
  }

  // ---- Groups ----

  /** One slot for every child that has a node. */
  ghost predicate GroupSlotsKept(before: GroupRawState, after: GroupRawState, entries: set<Uuid>, groups: set<Uuid>) {
    && after.entryOrder == FirstCurrent(Owned(before.nodeOrder, ENTRY_NODE, before.entryOrder), entries)
    && after.groupOrder == FirstCurrent(Owned(before.nodeOrder, GROUP_NODE, before.groupOrder), groups)
    && Count(after.nodeOrder, ENTRY_NODE) == |after.entryOrder| && Count(after.nodeOrder, GROUP_NODE) == |after.groupOrder|
    && Beside(after.nodeOrder, {ENTRY_NODE, GROUP_NODE, DATA_NODE}) == Beside(before.nodeOrder, {ENTRY_NODE, GROUP_NODE, DATA_NODE})
  }

  lemma NormalizedGroup(g: Group)
    ensures var n := NormalizeGroupSlots(g);
      && GroupSlotsKept(g.rawState, n.rawState, EntryIds(g.entries), GroupIds(g.children))
      && GroupAnchorsKept(g.rawState, n.rawState, EntryIds(g.entries), GroupIds(g.children),
                          g.opaqueXml, n.opaqueXml, g.customDataBlocks, n.customDataBlocks)
      && SameXml(n.opaqueXml, g.opaqueXml) && SameBlocks(n.customDataBlocks, g.customDataBlocks)
      && n == g.(rawState := n.rawState, opaqueXml := n.opaqueXml, customDataBlocks := n.customDataBlocks)
  {
    hide Retained, FirstCurrent, Count, Others, Beside, EntryIds, GroupIds, GroupAnchorsKept, Reanchored;
    NodeNames();
    var first := Slots(g.rawState.nodeOrder, g.rawState.entryOrder, g.opaqueXml, g.customDataBlocks);
    var e := Retained(ENTRY, first, EntryIds(g.entries));
    RetainedKeeps(ENTRY, first, EntryIds(g.entries));
    var second := Slots(e.nodeOrder, g.rawState.groupOrder, e.opaqueXml, e.blocks);
    var c := Retained(GROUP, second, GroupIds(g.children));
    RetainedKeeps(GROUP, second, GroupIds(g.children));
    SecondKeeps(ENTRY, GROUP, g.rawState.nodeOrder, g.rawState.entryOrder, e.nodeOrder, e.tracked, EntryIds(g.entries),
                g.rawState.groupOrder, c.nodeOrder, c.tracked, GroupIds(g.children), {ENTRY_NODE, GROUP_NODE, DATA_NODE});
    GroupAnchored(g, e, c, EntryIds(g.entries), GroupIds(g.children));
  }

  // ---- Custom data nodes go with their blocks ----

  lemma DataNodesGo(nodes: seq<Text>, occurrences: seq<bool>, names: set<Text>, name: Text)
    requires DATA_NODE in names && name != DATA_NODE
    ensures var kept := CustomData.RetainNodes(nodes, occurrences);
      Beside(kept, names) == Beside(nodes, names) && Count(kept, name) == Count(nodes, name)
  {
    NodeNames();
    Blocks.NodesFollowBlocks(nodes, occurrences, DATA_NODE);
    var kept := CustomData.RetainNodes(nodes, occurrences);
    BesideOthers(nodes, DATA_NODE, names);
    BesideOthers(kept, DATA_NODE, names);
    CountOthers(nodes, DATA_NODE, name);
    CountOthers(kept, DATA_NODE, name);
  }

  // ---- Snapshots ----

  const HISTORY_NODE: Text := "History"

  lemma {:induction false} RemovedNodes(nodes: seq<Text>, element: Text)
    ensures RemoveNodes(nodes, element).nodes == Others(nodes, element)
  {
    if nodes != [] {
      RemovedNodes(nodes[..|nodes| - 1], element);
    } else {
      assert Others(nodes, element) == [];
    }
  }

  lemma {:induction false} OthersAbsent(nodes: seq<Text>, name: Text)
    requires name !in nodes
    ensures Others(nodes, name) == nodes
  {
    if nodes != [] {
      var init, last := nodes[..|nodes| - 1], nodes[|nodes| - 1];
      assert nodes == init + [last] && last in nodes;
      OthersAbsent(init, name);
    }
  }

  /** A snapshot is the entry without its history and the nodes for one; opaque content and blocks stay, re-anchored where need be. */
  lemma SnapshotExactly(e: Entry)
    ensures var s := HistorySnapshot(e);
      && s == e.(history := [],
                 rawState := e.rawState.(hasHistoryNode := false, nodeOrder := Others(e.rawState.nodeOrder, HISTORY_NODE)),
                 opaqueXml := s.opaqueXml, customDataBlocks := s.customDataBlocks)
      && SameXml(s.opaqueXml, e.opaqueXml) && SameBlocks(s.customDataBlocks, e.customDataBlocks)
      && (HISTORY_NODE !in e.rawState.nodeOrder && !e.rawState.hasHistoryNode ==>
            s.opaqueXml == e.opaqueXml && s.customDataBlocks == e.customDataBlocks)
      && (HISTORY_NODE in e.rawState.nodeOrder || e.rawState.hasHistoryNode ==>
            && (forall i :: 0 <= i < |e.opaqueXml| ==>
                  WithoutHistory(e.rawState.nodeOrder, s.rawState.nodeOrder, e.opaqueXml[i].after, s.opaqueXml[i].after))
            && (forall i :: 0 <= i < |e.customDataBlocks| ==>
                  WithoutHistory(e.rawState.nodeOrder, s.rawState.nodeOrder, e.customDataBlocks[i].after, s.customDataBlocks[i].after)))
  {
    RemovedNodes(e.rawState.nodeOrder, HISTORY);
    if HISTORY !in e.rawState.nodeOrder {
      OthersAbsent(e.rawState.nodeOrder, HISTORY);
    }
    var removal := RemoveNodes(e.rawState.nodeOrder, HISTORY);
    hide RemoveNodes, Others, WithoutHistory, Retarget;
    forall a ensures WithoutHistory(e.rawState.nodeOrder, removal.nodes, a, Retarget(a, HISTORY, removal.replacements)) {
      RemovedAnchor(e.rawState.nodeOrder, a);
    }
  }

  /** No slot of a history is left; what followed one follows the node before it. */
  ghost predicate WithoutHistory(before: seq<Text>, after: seq<Text>, a: Option<Anchor>, b: Option<Anchor>) {
    Reanchored<Uuid>(HISTORY_NODE, before, [], {}, after, a, b)
  }

  lemma RemovedAnchor(nodes: seq<Text>, a: Option<Anchor>)
    ensures var removal := RemoveNodes(nodes, HISTORY);
      WithoutHistory(nodes, removal.nodes, a, Retarget(a, HISTORY, removal.replacements))
  {
    var none: seq<Uuid> := [];
    RemovalIsEmptyRetention(HISTORY, nodes, none);
    hide RemoveNodes, ScanSlots, Retarget, Reanchored;
    RetargetedAnchor(HISTORY, nodes, none, {}, a);
  }
}
