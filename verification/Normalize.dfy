/** Keeping a record's fidelity slots in step with the children it really has. */
module Normalize {
  import opened Wrappers
  import opened IdOrder
  import opened TextOrder
  import opened FidelitySlots
  import opened Model
  import Attributes
  import CustomData

  const ENTRY: Text := "Entry"
  const GROUP: Text := "Group"
  const STRING: Text := "String"
  const BINARY: Text := "Binary"
  const HISTORY: Text := "History"

  function RetargetBlocks(blocks: seq<CustomData.Block>, element: Text, replacements: seq<Option<Anchor>>)
    : seq<CustomData.Block>
  {
    seq(|blocks|, i requires 0 <= i < |blocks| =>
      blocks[i].(after := Retarget(blocks[i].after, element, replacements)))
  }

  /** The parts of a record that slot retention rewrites together. */
  datatype Slots<T> = Slots(
    nodeOrder: seq<Text>,
    tracked: seq<T>,
    opaqueXml: seq<OpaqueXmlFragment>,
    blocks: seq<CustomData.Block>)

  function Retained<T(==)>(element: Text, s: Slots<T>, current: set<T>): Slots<T> {
    var scan := ScanSlots(element, s.nodeOrder, s.tracked, current);
    Slots(scan.nodes, scan.tracked,
          RetargetFragments(s.opaqueXml, element, scan.replacements),
          RetargetBlocks(s.blocks, element, scan.replacements))
  }

  function EntryIds(entries: seq<Entry>): set<Uuid> {
    set e | e in entries :: e.id
  }

  function GroupIds(groups: seq<Group>): set<Uuid> {
    set g | g in groups :: g.id
  }

  /** Drops the `Entry` and `Group` slots whose owners are no longer children. */
  function NormalizeGroupSlots(g: Group): Group {
    var e := Retained(ENTRY, Slots(g.rawState.nodeOrder, g.rawState.entryOrder, g.opaqueXml, g.customDataBlocks),
                      EntryIds(g.entries));
    var c := Retained(GROUP, Slots(e.nodeOrder, g.rawState.groupOrder, e.opaqueXml, e.blocks), GroupIds(g.children));
    g.(rawState := GroupRawState(c.nodeOrder, e.tracked, c.tracked),
       opaqueXml := c.opaqueXml,
       customDataBlocks := c.blocks)
  }

  const STANDARD_FIELDS: set<Text> := {"Title", "UserName", "Password", "URL", "Notes"}

  /** Drops the `String` and `Binary` slots whose fields and attachments are gone. */
  function NormalizeEntrySlots(e: Entry): Entry {
    var s := Retained(STRING, Slots(e.rawState.nodeOrder, e.rawState.stringOrder, e.opaqueXml, e.customDataBlocks),
                      STANDARD_FIELDS + Attributes.Materialize(e).fields.Keys);
    var b := Retained(BINARY, Slots(s.nodeOrder, e.rawState.binaryOrder, s.opaqueXml, s.blocks), e.attachments.Keys);
    e.(rawState := EntryRawState(b.nodeOrder, s.tracked, b.tracked, e.rawState.hasHistoryNode),
       opaqueXml := b.opaqueXml,
       customDataBlocks := b.blocks)
  }

  /** Turns a current entry into a history snapshot: its own history and the slot for it go away. */
  function HistorySnapshot(e: Entry): Entry {
    var bare := e.(history := [], rawState := e.rawState.(hasHistoryNode := false));
    if e.rawState.hasHistoryNode || HISTORY in e.rawState.nodeOrder then
      var removal := RemoveNodes(e.rawState.nodeOrder, HISTORY);
      bare.(rawState := bare.rawState.(nodeOrder := removal.nodes),
            opaqueXml := RetargetFragments(e.opaqueXml, HISTORY, removal.replacements),
            customDataBlocks := RetargetBlocks(e.customDataBlocks, HISTORY, removal.replacements))
    else bare
  }

  /** The in-place retention of one element's slots and of every anchor on them. */
  method RetainSlots<T(==)>(element: Text, s: Slots<T>, current: set<T>) returns (kept: Slots<T>)
    ensures kept == Retained(element, s, current)
  {
    var nodes, owners, replacements := RetainTrackedSlots(element, s.nodeOrder, s.tracked, current);
    kept := Slots(nodes, owners, RetargetFragments(s.opaqueXml, element, replacements),
                  RetargetBlocks(s.blocks, element, replacements));
  }

  method NormalizeGroupInPlace(g: Group) returns (normal: Group)
    ensures normal == NormalizeGroupSlots(g)
  {
    hide Retained;
    var e := RetainSlots(ENTRY, Slots(g.rawState.nodeOrder, g.rawState.entryOrder, g.opaqueXml, g.customDataBlocks),
                         EntryIds(g.entries));
    var c := RetainSlots(GROUP, Slots(e.nodeOrder, g.rawState.groupOrder, e.opaqueXml, e.blocks), GroupIds(g.children));
    normal := g.(rawState := GroupRawState(c.nodeOrder, e.tracked, c.tracked),
                 opaqueXml := c.opaqueXml,
                 customDataBlocks := c.blocks);
  }

  method NormalizeEntryInPlace(e: Entry) returns (normal: Entry)
    ensures normal == NormalizeEntrySlots(e)
  {
    hide Retained, Attributes.Materialize;
    var s := RetainSlots(STRING, Slots(e.rawState.nodeOrder, e.rawState.stringOrder, e.opaqueXml, e.customDataBlocks),
                         STANDARD_FIELDS + Attributes.Materialize(e).fields.Keys);
    var b := RetainSlots(BINARY, Slots(s.nodeOrder, e.rawState.binaryOrder, s.opaqueXml, s.blocks), e.attachments.Keys);
    normal := e.(rawState := EntryRawState(b.nodeOrder, s.tracked, b.tracked, e.rawState.hasHistoryNode),
                 opaqueXml := b.opaqueXml,
                 customDataBlocks := b.blocks);
  }

  /** A snapshot has no history of its own, no slot for one, and otherwise the entry's contents. */
  lemma SnapshotHasNoHistory(e: Entry)
    ensures var s := HistorySnapshot(e);
      && s.history == [] && !s.rawState.hasHistoryNode && HISTORY !in s.rawState.nodeOrder
      && s == e.(history := [], rawState := s.rawState, opaqueXml := s.opaqueXml, customDataBlocks := s.customDataBlocks)
      && (HISTORY !in e.rawState.nodeOrder && !e.rawState.hasHistoryNode ==>
            s.rawState == e.rawState && s.opaqueXml == e.opaqueXml && s.customDataBlocks == e.customDataBlocks)
  {
    RemovalLeavesNone(e.rawState.nodeOrder, HISTORY);
  }

  method PrepareHistorySnapshot(e: Entry) returns (snapshot: Entry)
    ensures snapshot == HistorySnapshot(e)
    ensures snapshot.history == [] && !snapshot.rawState.hasHistoryNode && HISTORY !in snapshot.rawState.nodeOrder
  {
    SnapshotHasNoHistory(e);
    snapshot := e.(history := [], rawState := e.rawState.(hasHistoryNode := false));
    if e.rawState.hasHistoryNode || HISTORY in e.rawState.nodeOrder {
      var nodes, replacements := RemoveKnownNodes(e.rawState.nodeOrder, HISTORY);
      snapshot := snapshot.(
        rawState := snapshot.rawState.(nodeOrder := nodes),
        opaqueXml := RetargetFragments(e.opaqueXml, HISTORY, replacements),
        customDataBlocks := RetargetBlocks(e.customDataBlocks, HISTORY, replacements));
    }
  }
}
