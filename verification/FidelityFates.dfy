/** What a successful patch makes of the order of child nodes, the slots and the opaque content of every record. */
module FidelityFates {
  import opened Wrappers
  import opened IdOrder
  import opened TextOrder
  import opened FidelitySlots
  import opened Model
  import opened FieldMerge
  import opened Attributes
  import opened Forest
  import opened Tree
  import opened Rebuild
  import opened RebuildInverse
  import opened Normalize
  import opened SiblingMerge
  import opened EntryMerge
  import opened EntrySurvival
  import opened MetaMerge
  import opened PatchRecords
  import opened ThreeWayPatch
  import opened PatchTheorems
  import opened PatchFates
  import opened Clashes
  import opened RecordSlots
  import opened GroupSlots
  import opened DataFidelity
  import GM = GroupMerge
  import CD = CustomData

  // ---- Entries ----

  /**
    The node order with its slots, and the opaque content, each come from the
    side whose edit stands. Custom data drops the nodes of blocks that go; then
    those slots stay whose field or attachment the merged entry has. Whatever
    followed a node still follows it, or the nearest one before it that stays.
   */
  ghost predicate EntryFidelityKept(base: Entry, local: Entry, remote: Entry, merged: Entry) {
    var preferLocal := local.modifiedAt > remote.modifiedAt;
    exists raw: EntryRawState, xml: seq<OpaqueXmlFragment>, blocks: seq<CD.Block>, joined: seq<OpaqueXmlFragment>, nodes: seq<Text> ::
      && EditKept(base.rawState, local.rawState, remote.rawState, raw, preferLocal)
      && EditKept(base.opaqueXml, local.opaqueXml, remote.opaqueXml, xml, preferLocal)
      && DataMerged(CD.Side(base.customData, base.customDataBlocks), CD.Side(local.customData, local.customDataBlocks),
                    CD.Side(remote.customData, remote.customDataBlocks), merged.customData, blocks, xml, joined, raw.nodeOrder, nodes)
      && EntrySlotsKept(raw, merged.rawState, Materialize(merged).fields.Keys, merged.attachments.Keys)
      && EntryAnchorsKept(raw.(nodeOrder := nodes), merged.rawState, Materialize(merged).fields.Keys, merged.attachments.Keys,
                          joined, merged.opaqueXml, blocks, merged.customDataBlocks)
  }

  /** Dropping the nodes of blocks that go disturbs no other slot. */
  lemma DataNodesKeepSlots(before: EntryRawState, occurrences: seq<bool>, after: EntryRawState, attributes: set<Text>, files: set<Text>)
    requires EntrySlotsKept(before.(nodeOrder := CD.RetainNodes(before.nodeOrder, occurrences)), after, attributes, files)
    ensures EntrySlotsKept(before, after, attributes, files)
  {
    NodeNames();
    DataNodesGo(before.nodeOrder, occurrences, {STRING_NODE, BINARY_NODE, DATA_NODE}, STRING_NODE);
    DataNodesGo(before.nodeOrder, occurrences, {STRING_NODE, BINARY_NODE, DATA_NODE}, BINARY_NODE);
    hide Beside, Count, FirstCurrent, CD.RetainNodes;
  }

  /** Reconciling custom data only drops nodes. */
  lemma ReconciledNodes(base: CD.Side, local: CD.Side, remote: CD.Side, preferLocal: bool, xml: seq<OpaqueXmlFragment>, nodes: seq<Text>)
    returns (occurrences: seq<bool>)
    ensures CD.MergedSide(base, local, remote, preferLocal, xml, nodes).fidelity.nodeOrder == CD.RetainNodes(nodes, occurrences)
  {
    hide CD.MergedUnits, CD.Units, CD.WithStamps, CD.RetainBlocks, CD.ReviseLast, CD.AppendItems, CD.NewItems, CD.RetainNodes;
    var units := CD.MergedUnits(CD.Units(base.values, base.blocks), CD.Units(local.values, local.blocks),
                                CD.Units(remote.values, remote.blocks), preferLocal);
    var carrier := if CD.FidelityOnly(base, local, remote) then local.blocks else remote.blocks;
    occurrences := CD.RetainBlocks(carrier, CD.UnitValues(units).Keys).occurrences;
  }

  lemma FieldsFidelity(base: Entry, local: Entry, remote: Entry, preferLocal: bool)
    ensures var raw := Selected(base.rawState, local.rawState, remote.rawState, preferLocal);
      var xml := Selected(base.opaqueXml, local.opaqueXml, remote.opaqueXml, preferLocal);
      var m := CD.MergedSide(DataOf(base), DataOf(local), DataOf(remote), preferLocal, xml, raw.nodeOrder);
      var fields := MergedFields(base, local, remote, preferLocal);
      && fields.rawState == raw.(nodeOrder := m.fidelity.nodeOrder) && fields.opaqueXml == m.fidelity.opaqueXml
      && fields.customData == m.values && fields.customDataBlocks == m.fidelity.blocks
  {
    hide CD.MergedSide, MergedAttributes, HistoryUnion, SelectedMap, CD.RetainNodes, Selected, TotpUnit, PasskeyUnit, UnionKeys;
  }

  lemma MergedEntryFidelity(base: Entry, local: Entry, remote: Entry)
    ensures EntryFidelityKept(base, local, remote, MergedEntry(base, local, remote))
  {
    var preferLocal := PrefersLocal(local, remote);
    var raw := Selected(base.rawState, local.rawState, remote.rawState, preferLocal);
    var xml := Selected(base.opaqueXml, local.opaqueXml, remote.opaqueXml, preferLocal);
    SelectedKeepsEdits(base.rawState, local.rawState, remote.rawState, preferLocal);
    SelectedKeepsEdits(base.opaqueXml, local.opaqueXml, remote.opaqueXml, preferLocal);
    hide MergedFields, NormalizeEntrySlots, Materialize, EntrySlotsKept, EntryAnchorsKept, EntryConflicts, AppendMissing,
         HistorySnapshot, CD.RetainNodes, Selected, EditKept, CD.MergedSide, DataMerged;
    FieldsFidelity(base, local, remote, preferLocal);
    var m := CD.MergedSide(DataOf(base), DataOf(local), DataOf(remote), preferLocal, xml, raw.nodeOrder);
    DataMergedExactly(DataOf(base), DataOf(local), DataOf(remote), preferLocal, xml, raw.nodeOrder);
    var occurrences := ReconciledNodes(DataOf(base), DataOf(local), DataOf(remote), preferLocal, xml, raw.nodeOrder);
    var fields := MergedFields(base, local, remote, preferLocal);
    var e := if EntryConflicts(base, local, remote) then WithLoser(fields, Loser(local, remote)) else fields;
    NormalizedEntry(e);
    var n := NormalizeEntrySlots(e);
    SameView(e, n);
    DataNodesKeepSlots(raw, occurrences, n.rawState, Materialize(n).fields.Keys, n.attachments.Keys);
    assert DataMerged(CD.Side(base.customData, base.customDataBlocks), CD.Side(local.customData, local.customDataBlocks),
                      CD.Side(remote.customData, remote.customDataBlocks), n.customData, m.fidelity.blocks, xml, m.fidelity.opaqueXml,
                      raw.nodeOrder, m.fidelity.nodeOrder);
  }

  /** The view does not depend on fidelity, history or place. */
  lemma SameView(a: Entry, b: Entry)
    requires b == a.(rawState := b.rawState, opaqueXml := b.opaqueXml, customDataBlocks := b.customDataBlocks,
                     history := b.history, locationChangedAt := b.locationChangedAt)
    ensures Materialize(a) == Materialize(b)
  {
    hide TotpFrom, PasskeyFrom, WithTotp, WithPasskey;
  }

  lemma MergedRecordFidelity(base: Flat<Entry>, local: Flat<Entry>, remote: Flat<Entry>)
    requires base.parent.Some? && local.parent.Some? && remote.parent.Some?
    ensures EntryFidelityKept(base.value, local.value, remote.value, MergedRecord(base, local, remote).record.value)
  {
    hide MergedEntry, EntrySlotsKept, EntryAnchorsKept, DataMerged, Materialize, AppendMissing, HistorySnapshot, EditKept, EntryConflicts;
    MergedEntryFidelity(base.value, local.value, remote.value);
    SameView(MergedEntry(base.value, local.value, remote.value), MergedRecord(base, local, remote).record.value);
  }

  /** An entry that all three versions hold keeps its nodes, slots and opaque content in the returned tree. */
  lemma EntryFidelityFate(base: Vault, local: Vault, remote: Vault, result: PatchResult, side: Version, id: Uuid)
    requires Patch(base, local, remote) == Success(result)
    ensures Flattened(base, local, remote).Success? && FlattenVault(result.vault, side).Success?
    ensures var v, again := Flattened(base, local, remote).value, FlattenVault(result.vault, side).value;
      id in v.base.entries && id in v.local.entries && id in v.remote.entries ==>
        && id in again.entries
        && EntryFidelityKept(v.base.entries[id].value, v.local.entries[id].value, v.remote.entries[id].value, again.entries[id].value)
  {
    hide Patch, Flattened, FlattenVault, MergedRecord, SharedEntryKept, EntryOutlives, EntriesPlaced, EntryFidelityKept;
    EntryFate(base, local, remote, result, side, id);
    PatchHoldsSurvivors(base, local, remote, result, side);
    var v := Flattened(base, local, remote).value;
    if id in v.base.entries && id in v.local.entries && id in v.remote.entries {
      PlacedEntries(v, id);
      MergedRecordFidelity(v.base.entries[id], v.local.entries[id], v.remote.entries[id]);
    }
  }

  lemma PlacedEntries(v: GM.Versions, id: Uuid)
    requires EntriesPlaced(v) && id in v.base.entries && id in v.local.entries && id in v.remote.entries
    ensures v.base.entries[id].parent.Some? && v.local.entries[id].parent.Some? && v.remote.entries[id].parent.Some?
  {
  }

  // ---- Groups ----

  /** The same for a group all three versions hold, with one slot for every child the returned group has. */
  ghost predicate GroupFidelityKept(base: Group, local: Group, remote: Group, merged: Group, entries: set<Uuid>, groups: set<Uuid>) {
    var preferLocal := ModifiedTime(local) > ModifiedTime(remote);
    exists raw: GroupRawState, xml: seq<OpaqueXmlFragment>, blocks: seq<CD.Block>, joined: seq<OpaqueXmlFragment>, nodes: seq<Text> ::
      && EditKept(base.rawState, local.rawState, remote.rawState, raw, preferLocal)
      && EditKept(base.opaqueXml, local.opaqueXml, remote.opaqueXml, xml, preferLocal)
      && DataMerged(CD.Side(base.customData, base.customDataBlocks), CD.Side(local.customData, local.customDataBlocks),
                    CD.Side(remote.customData, remote.customDataBlocks), merged.customData, blocks, xml, joined, raw.nodeOrder, nodes)
      && GroupSlotsKept(raw, merged.rawState, entries, groups)
      && GroupAnchorsKept(raw.(nodeOrder := nodes), merged.rawState, entries, groups,
                          joined, merged.opaqueXml, blocks, merged.customDataBlocks)
  }

  /** A group taken from one side keeps that side's nodes, opaque content and blocks. */
  ghost predicate GroupFidelityOf(source: Group, returned: Group, entries: set<Uuid>, groups: set<Uuid>) {
    && GroupSlotsKept(source.rawState, returned.rawState, entries, groups)
    && GroupAnchorsKept(source.rawState, returned.rawState, entries, groups,
                        source.opaqueXml, returned.opaqueXml, source.customDataBlocks, returned.customDataBlocks)
  }

  lemma DataNodesKeepGroupSlots(before: GroupRawState, occurrences: seq<bool>, after: GroupRawState, entries: set<Uuid>, groups: set<Uuid>)
    requires GroupSlotsKept(before.(nodeOrder := CD.RetainNodes(before.nodeOrder, occurrences)), after, entries, groups)
    ensures GroupSlotsKept(before, after, entries, groups)
  {
    NodeNames();
    DataNodesGo(before.nodeOrder, occurrences, {ENTRY_NODE, GROUP_NODE, DATA_NODE}, ENTRY_NODE);
    DataNodesGo(before.nodeOrder, occurrences, {ENTRY_NODE, GROUP_NODE, DATA_NODE}, GROUP_NODE);
    hide Beside, Count, FirstCurrent, CD.RetainNodes;
  }

  lemma MergedGroupFidelity(base: Group, local: Group, remote: Group, merged: Group, returned: Group,
                            entries: set<Uuid>, groups: set<Uuid>)
    requires SameFidelity(merged, GM.MergedGroup(base, local, remote))
    requires GroupFidelityOf(merged, returned, entries, groups) && returned.customData == merged.customData
    ensures GroupFidelityKept(base, local, remote, returned, entries, groups)
  {
    var preferLocal := ModifiedTime(local) > ModifiedTime(remote);
    var raw := Selected(base.rawState, local.rawState, remote.rawState, preferLocal);
    var xml := Selected(base.opaqueXml, local.opaqueXml, remote.opaqueXml, preferLocal);
    SelectedKeepsEdits(base.rawState, local.rawState, remote.rawState, preferLocal);
    SelectedKeepsEdits(base.opaqueXml, local.opaqueXml, remote.opaqueXml, preferLocal);
    hide CD.MergedSide, CD.RetainNodes, Selected, EditKept, DataMerged, GroupSlotsKept, GroupAnchorsKept;
    var b, l, r := GM.SideOf(base), GM.SideOf(local), GM.SideOf(remote);
    var m := CD.MergedSide(b, l, r, preferLocal, xml, raw.nodeOrder);
    GroupFieldsFidelity(base, local, remote);
    hide GM.MergedGroup;
    DataMergedExactly(b, l, r, preferLocal, xml, raw.nodeOrder);
    var occurrences := ReconciledNodes(b, l, r, preferLocal, xml, raw.nodeOrder);
    DataNodesKeepGroupSlots(raw, occurrences, returned.rawState, entries, groups);
    assert DataMerged(CD.Side(base.customData, base.customDataBlocks), CD.Side(local.customData, local.customDataBlocks),
                      CD.Side(remote.customData, remote.customDataBlocks), returned.customData, m.fidelity.blocks, xml,
                      m.fidelity.opaqueXml, raw.nodeOrder, m.fidelity.nodeOrder);
  }

  ghost predicate SameFidelity(a: Group, b: Group) {
    a.rawState == b.rawState && a.opaqueXml == b.opaqueXml && a.customData == b.customData && a.customDataBlocks == b.customDataBlocks
  }

  lemma GroupFieldsFidelity(base: Group, local: Group, remote: Group)
    ensures var preferLocal := ModifiedTime(local) > ModifiedTime(remote);
      var raw := Selected(base.rawState, local.rawState, remote.rawState, preferLocal);
      var xml := Selected(base.opaqueXml, local.opaqueXml, remote.opaqueXml, preferLocal);
      var m := CD.MergedSide(GM.SideOf(base), GM.SideOf(local), GM.SideOf(remote), preferLocal, xml, raw.nodeOrder);
      var g := GM.MergedGroup(base, local, remote);
      && g.rawState == raw.(nodeOrder := m.fidelity.nodeOrder) && g.opaqueXml == m.fidelity.opaqueXml
      && g.customData == m.values && g.customDataBlocks == m.fidelity.blocks
  {
    hide CD.MergedSide, Selected, GM.MergedTimes;
  }

  /** The slots of a returned group are those of its surviving record. */
  lemma ReturnedSlots(base: Vault, local: Vault, remote: Vault, result: PatchResult, side: Version, id: Uuid)
    requires Patch(base, local, remote) == Success(result)
    ensures Flattened(base, local, remote).Success? && FlattenVault(result.vault, side).Success?
    ensures var v, again := Flattened(base, local, remote).value, FlattenVault(result.vault, side).value;
      id in again.groups ==>
        && id in GM.SurvivingGroups(v)
        && GroupFidelityOf(GM.SurvivingGroups(v)[id].value, again.groups[id].value, HeldBy(again.entries, id), HeldBy(again.groups, id))
        && again.groups[id].value.customData == GM.SurvivingGroups(v)[id].value.customData
  {
    hide Flattened, Patched, RebuildTree, MergedMeta, Patch, GM.OneLineage, WellFormed, FromSurvivors, FlattenVault, EntriesPlaced,
         SlotsHeld, GM.SurvivingGroups, SurvivingEntries, SameRecords;
    var v, p := PatchStages(base, local, remote, result);
    FlattenedIsOneLineage(base, local, remote);
    PatchedSteps(v, p);
    PatchedIsWellFormed(v, p);
    var flat := FlatOf(v, p);
    FlattenOfRebuild(flat, result.vault, side);
    FlattenHoldsSlots(flat, result.vault, side);
    var again := FlattenVault(result.vault, side).value;
    SameUnder(flat, again, id);
    if id in again.groups {
      HeldSlots(flat, again, id);
      SurvivorValue(v, p, id);
      SameData(again, flat, id);
    }
  }

  lemma SameData(again: FlatVault, flat: FlatVault, id: Uuid)
    requires SameRecords(again, flat, flat.groups.Keys, flat.entries.Keys) && id in flat.groups
    ensures id in again.groups && again.groups[id].value.customData == flat.groups[id].value.customData
  {
    assert SameButSlots(Shell(again.groups[id].value), Shell(flat.groups[id].value));
  }

  lemma SurvivorValue(v: GM.Versions, p: PatchedRecords, id: Uuid)
    requires EntriesPlaced(v) && FromSurvivors(v, p) && id in p.groups
    ensures id in GM.SurvivingGroups(v) && p.groups[id].value == GM.SurvivingGroups(v)[id].value
  {
    hide GM.SurvivingGroups, SurvivingEntries, EntriesPlaced;
  }

  lemma HeldSlots(flat: FlatVault, again: FlatVault, id: Uuid)
    requires SlotsHeld(flat, again, id)
    ensures id in flat.groups && id in again.groups
    ensures GroupFidelityOf(flat.groups[id].value, again.groups[id].value, HeldBy(flat.entries, id), HeldBy(flat.groups, id))
  {
    hide GroupSlotsKept, GroupAnchorsKept;
  }

  lemma SameUnder(flat: FlatVault, again: FlatVault, id: Uuid)
    requires SameRecords(again, flat, flat.groups.Keys, flat.entries.Keys)
    requires again.groups.Keys == flat.groups.Keys && again.entries.Keys == flat.entries.Keys
    ensures HeldBy(flat.entries, id) == HeldBy(again.entries, id) && HeldBy(flat.groups, id) == HeldBy(again.groups, id)
  {
  }

  /** Every returned group's nodes, slots and opaque content, wherever the group came from. */
  lemma GroupFidelityFate(base: Vault, local: Vault, remote: Vault, result: PatchResult, side: Version, id: Uuid)
    requires Patch(base, local, remote) == Success(result)
    ensures Flattened(base, local, remote).Success? && FlattenVault(result.vault, side).Success?
    ensures var v, again := Flattened(base, local, remote).value, FlattenVault(result.vault, side).value;
      id in again.groups ==>
        var returned, entries, groups := again.groups[id].value, HeldBy(again.entries, id), HeldBy(again.groups, id);
        && (GroupOutlives(id, v.base, v.local, v.remote) ==>
              id in v.local.groups && GroupFidelityOf(v.local.groups[id].value, returned, entries, groups))
        && (GroupOutlives(id, v.base, v.remote, v.local) || (id !in v.base.groups && id in v.local.groups && id in v.remote.groups) ==>
              id in v.remote.groups && GroupFidelityOf(v.remote.groups[id].value, returned, entries, groups))
        && (id in v.base.groups && id in v.local.groups && id in v.remote.groups ==>
              GroupFidelityKept(v.base.groups[id].value, v.local.groups[id].value, v.remote.groups[id].value,
                                returned, entries, groups))
  {
    hide Patch, Flattened, FlattenVault, GM.SurvivingGroups, GroupFidelityOf, GroupFidelityKept, GM.GroupOutcome,
         GM.AllLinked, GM.AllGroupsDecided, AllEntriesDecided, EntriesPlaced, KeptAlive, HeldBy;
    ReturnedSlots(base, local, remote, result, side, id);
    OutcomesDecided(base, local, remote, result);
    var v, again := Flattened(base, local, remote).value, FlattenVault(result.vault, side).value;
    if id in again.groups {
      GroupSurvives(v, id);
      GroupOutcomeOf(v, id);
      if id in v.local.groups && id in v.remote.groups {
        if id in v.base.groups {
          SharedValue(v, id);
          MergedGroupFidelity(v.base.groups[id].value, v.local.groups[id].value, v.remote.groups[id].value,
                              GM.SurvivingGroups(v)[id].value, again.groups[id].value,
                              HeldBy(again.entries, id), HeldBy(again.groups, id));
        } else {
          AddedAlikeIsRemotes(v, id);
        }
      }
    }
  }

  lemma SharedValue(v: GM.Versions, id: Uuid)
    requires GM.AllGroupsDecided(v) && id in v.base.groups && id in v.local.groups && id in v.remote.groups
    ensures id in GM.SurvivingGroups(v)
    ensures SameFidelity(GM.SurvivingGroups(v)[id].value,
                         GM.MergedGroup(v.base.groups[id].value, v.local.groups[id].value, v.remote.groups[id].value))
  {
    hide GM.MergedGroup, GM.GroupConflicts, MergeLocation, GM.SurvivingGroups, GM.AllGroupsDecided;
    GroupSurvives(v, id);
  }
}
