/** The field-by-field merge of one record, with the conflict flag it raises on the way. */
module RecordMerge {
  import opened Wrappers
  import opened IdOrder
  import opened TextOrder
  import opened FidelitySlots
  import opened Model
  import opened FieldMerge
  import opened Attributes
  import opened Normalize
  import opened EntryMerge
  import GM = GroupMerge
  import CD = CustomData
  import opened CustomDataInPlace

  /** Some key among `keys` was given different values by both sides. */
  predicate UnitConflictAmong(b: map<Text, CD.Unit>, l: map<Text, CD.Unit>, r: map<Text, CD.Unit>, keys: set<Text>) {
    exists key | key in keys ::
      Conflicts(CD.ValueOf(Get(b, key)), CD.ValueOf(Get(l, key)), CD.ValueOf(Get(r, key)))
  }

  ghost predicate UnitsMergedFor(
    b: map<Text, CD.Unit>, l: map<Text, CD.Unit>, r: map<Text, CD.Unit>, preferLocal: bool,
    merged: map<Text, CD.Unit>, keys: set<Text>)
  {
    forall key ::
      Get(merged, key) ==
        if key in keys then CD.MergedUnit(Get(b, key), Get(l, key), Get(r, key), preferLocal) else None
  }

  lemma AllUnitsMerged(b: map<Text, CD.Unit>, l: map<Text, CD.Unit>, r: map<Text, CD.Unit>, preferLocal: bool,
                       merged: map<Text, CD.Unit>)
    requires UnitsMergedFor(b, l, r, preferLocal, merged, UnionKeys(b, l, r))
    ensures merged == CD.MergedUnits(b, l, r, preferLocal)
  {
    hide CD.MergedUnit;
    var all := CD.MergedUnits(b, l, r, preferLocal);
    forall key ensures key in merged <==> key in all {
      assert Get(merged, key).Some? <==> key in merged;
    }
    forall key | key in merged ensures merged[key] == all[key] {
      assert Get(merged, key) == Some(merged[key]);
    }
  }

  lemma UnitFollowsValue(b: Option<CD.Unit>, l: Option<CD.Unit>, r: Option<CD.Unit>, preferLocal: bool)
    ensures CD.MergedUnit(b, l, r, preferLocal).Some?
       <==> Selected(CD.ValueOf(b), CD.ValueOf(l), CD.ValueOf(r), preferLocal).Some?
  {
  }

  lemma UnitsStep(b: map<Text, CD.Unit>, l: map<Text, CD.Unit>, r: map<Text, CD.Unit>, preferLocal: bool,
                  merged: map<Text, CD.Unit>, keys: set<Text>, key: Text)
    requires UnitsMergedFor(b, l, r, preferLocal, merged, keys) && key !in keys
    ensures var unit := CD.MergedUnit(Get(b, key), Get(l, key), Get(r, key), preferLocal);
      UnitsMergedFor(b, l, r, preferLocal, if unit.Some? then merged[key := unit.value] else merged, keys + {key})
  {
    hide CD.MergedUnit;
    assert Get(merged, key) == None;
  }

  lemma NoConflictYet(b: map<Text, CD.Unit>, l: map<Text, CD.Unit>, r: map<Text, CD.Unit>)
    ensures !UnitConflictAmong(b, l, r, {})
  {
  }

  lemma ConflictStep(b: map<Text, CD.Unit>, l: map<Text, CD.Unit>, r: map<Text, CD.Unit>, keys: set<Text>, key: Text)
    ensures UnitConflictAmong(b, l, r, keys + {key}) <==>
      UnitConflictAmong(b, l, r, keys) || Conflicts(CD.ValueOf(Get(b, key)), CD.ValueOf(Get(l, key)), CD.ValueOf(Get(r, key)))
  {
    hide Conflicts, CD.ValueOf, Get;
  }

  method MergeUnits(flag: ConflictFlag, b: map<Text, CD.Unit>, l: map<Text, CD.Unit>, r: map<Text, CD.Unit>,
                    preferLocal: bool) returns (merged: map<Text, CD.Unit>)
    modifies flag
    ensures merged == CD.MergedUnits(b, l, r, preferLocal)
    ensures flag.conflict == (old(flag.conflict) || UnitConflictAmong(b, l, r, UnionKeys(b, l, r)))
  {
    hide CD.MergedUnit, Conflicts, Selected, CD.ValueOf, CD.MergedUnits;
    merged := map[];
    assert UnitsMergedFor(b, l, r, preferLocal, merged, {});
    hide UnitsMergedFor, UnitConflictAmong, Get;
    NoConflictYet(b, l, r);
    var keys := UnionKeys(b, l, r);
    var remaining := keys;
    assert keys - remaining == {};
    while remaining != {}
      invariant remaining <= keys
      invariant UnitsMergedFor(b, l, r, preferLocal, merged, keys - remaining)
      invariant flag.conflict == (old(flag.conflict) || UnitConflictAmong(b, l, r, keys - remaining))
      decreases remaining
    {
      var key :| key in remaining;
      assert keys - (remaining - {key}) == (keys - remaining) + {key};
      var value := flag.MergeValue(CD.ValueOf(Get(b, key)), CD.ValueOf(Get(l, key)), CD.ValueOf(Get(r, key)), preferLocal);
      var unit := CD.MergedUnit(Get(b, key), Get(l, key), Get(r, key), preferLocal);
      UnitsStep(b, l, r, preferLocal, merged, keys - remaining, key);
      ConflictStep(b, l, r, keys - remaining, key);
      UnitFollowsValue(Get(b, key), Get(l, key), Get(r, key), preferLocal);
      if value.Some? {
        merged := merged[key := unit.value];
      }
      remaining := remaining - {key};
    }
    assert keys - {} == keys;
    AllUnitsMerged(b, l, r, preferLocal, merged);
  }

  method MergeCustomDataFields(flag: ConflictFlag, base: CD.Side, local: CD.Side, remote: CD.Side, preferLocal: bool,
                               opaqueXml: seq<OpaqueXmlFragment>, nodeOrder: seq<Text>) returns (merged: CD.Merged)
    modifies flag
    ensures merged == CD.MergedSide(base, local, remote, preferLocal, opaqueXml, nodeOrder)
    ensures flag.conflict == (old(flag.conflict) || CD.UnitsConflict(base, local, remote))
  {
    hide CD.MergedUnits, CD.FidelityOnly, CD.Reconciled, CD.WithStamps;
    var units := MergeUnits(flag, CD.Units(base.values, base.blocks), CD.Units(local.values, local.blocks),
                            CD.Units(remote.values, remote.blocks), preferLocal);
    var values := CD.UnitValues(units);
    var carrier := if CD.FidelityOnly(base, local, remote) then local.blocks else remote.blocks;
    var f := ReconcileBlocks(CD.Fidelity(carrier, opaqueXml, nodeOrder), values, None);
    var stamped := ApplyLastModified(f.blocks, units);
    merged := CD.Merged(values, f.(blocks := stamped));
  }

  method MergeScalars(flag: ConflictFlag, base: Entry, local: Entry, remote: Entry, preferLocal: bool)
    returns (merged: Entry)
    modifies flag
    ensures flag.conflict == (old(flag.conflict) || ScalarsConflict(base, local, remote))
    ensures merged == remote.(
      title := Selected(base.title, local.title, remote.title, preferLocal),
      username := Selected(base.username, local.username, remote.username, preferLocal),
      password := Selected(base.password, local.password, remote.password, preferLocal),
      tags := Selected(base.tags, local.tags, remote.tags, preferLocal),
      rawState := Selected(base.rawState, local.rawState, remote.rawState, preferLocal),
      opaqueXml := Selected(base.opaqueXml, local.opaqueXml, remote.opaqueXml, preferLocal),
      iconId := Selected(Icon(base), Icon(local), Icon(remote), preferLocal).0,
      customIconId := Selected(Icon(base), Icon(local), Icon(remote), preferLocal).1)
  {
    hide Selected, Conflicts;
    var title := flag.MergeValue(base.title, local.title, remote.title, preferLocal);
    var username := flag.MergeValue(base.username, local.username, remote.username, preferLocal);
    var password := flag.MergeValue(base.password, local.password, remote.password, preferLocal);
    var tags := flag.MergeValue(base.tags, local.tags, remote.tags, preferLocal);
    var rawState := flag.MergeValue(base.rawState, local.rawState, remote.rawState, preferLocal);
    var opaqueXml := flag.MergeValue(base.opaqueXml, local.opaqueXml, remote.opaqueXml, preferLocal);
    var icon := flag.MergeValue(Icon(base), Icon(local), Icon(remote), preferLocal);
    merged := remote.(title := title, username := username, password := password, tags := tags,
                      rawState := rawState, opaqueXml := opaqueXml, iconId := icon.0, customIconId := icon.1);
  }

  method MergeAttributes(flag: ConflictFlag, base: Entry, local: Entry, remote: Entry, preferLocal: bool)
    returns (attributes: Fields, totp: Option<TotpSpec>, passkey: Option<PasskeyRecord>)
    modifies flag
    ensures flag.conflict == (old(flag.conflict) || AttributesConflict(base, local, remote))
    ensures attributes == MergedAttributes(base, local, remote, preferLocal)
    ensures totp == Selected(TotpUnit(base), TotpUnit(local), TotpUnit(remote), preferLocal).projected
    ensures passkey == Selected(PasskeyUnit(base), PasskeyUnit(local), PasskeyUnit(remote), preferLocal).projected
  {
    hide Selected, Conflicts, SelectedMap, MapConflicts, TotpUnit, PasskeyUnit;
    attributes := flag.MergeKeyedMap(base.attributes, local.attributes, remote.attributes, preferLocal,
                                     PlainKeys(base, local, remote));
    var totpUnit := flag.MergeValue(TotpUnit(base), TotpUnit(local), TotpUnit(remote), preferLocal);
    attributes, totp := attributes + totpUnit.attributes, totpUnit.projected;
    var passkeyUnit := flag.MergeValue(PasskeyUnit(base), PasskeyUnit(local), PasskeyUnit(remote), preferLocal);
    attributes, passkey := attributes + passkeyUnit.attributes, passkeyUnit.projected;
  }

  method MergeEntry(base: Entry, local: Entry, remote: Entry) returns (merged: Entry)
    ensures merged == MergedEntry(base, local, remote)
  {
    hide Selected, SelectedMap, MapConflicts, AttributesConflict, ScalarsConflict, CD.UnitsConflict, CD.MergedSide,
         HistoryUnion, NormalizeEntrySlots, MergedAttributes, TotpUnit, PasskeyUnit, AppendMissing, HistorySnapshot;
    var flag := new ConflictFlag();
    var preferLocal := local.modifiedAt > remote.modifiedAt;
    merged := MergeScalars(flag, base, local, remote, preferLocal);
    var attributes, totp, passkey := MergeAttributes(flag, base, local, remote, preferLocal);
    var attachments := flag.MergeKeyedMap(base.attachments, local.attachments, remote.attachments, preferLocal,
                                          UnionKeys(base.attachments, local.attachments, remote.attachments));
    var data := MergeCustomDataFields(flag, DataOf(base), DataOf(local), DataOf(remote), preferLocal,
                                      merged.opaqueXml, merged.rawState.nodeOrder);
    merged := merged.(
      attributes := attributes, totp := totp, passkey := passkey, attachments := attachments,
      customData := data.values, customDataBlocks := data.fidelity.blocks, opaqueXml := data.fidelity.opaqueXml,
      rawState := merged.rawState.(nodeOrder := data.fidelity.nodeOrder),
      history := HistoryUnion(base.history, local.history, remote.history),
      modifiedAt := if local.modifiedAt >= remote.modifiedAt then local.modifiedAt else remote.modifiedAt);
    assert merged == MergedFields(base, local, remote, preferLocal);
    if flag.conflict {
      var snapshot := PrepareHistorySnapshot(if preferLocal then remote else local);
      merged := merged.(history := AppendMissing(merged.history, [snapshot]));
    }
    merged := NormalizeEntryInPlace(merged);
  }

  // ---- Groups ----

  method MergeGroupTimes(flag: ConflictFlag, base: Option<GroupTimes>, local: Option<GroupTimes>,
                         remote: Option<GroupTimes>, preferLocal: bool) returns (merged: Option<GroupTimes>)
    modifies flag
    ensures merged == GM.MergedTimes(base, local, remote, preferLocal)
    ensures flag.conflict == (old(flag.conflict) || GM.TimesConflict(base, local, remote))
  {
    if base.Some? && local.Some? && remote.Some? {
      var createdAt := flag.MergeValue(base.value.createdAt, local.value.createdAt, remote.value.createdAt, preferLocal);
      merged := Some(GM.LaterTimes(remote.value.(createdAt := createdAt), local.value, remote.value));
    } else if GM.AddedAlike(base, local, remote) {
      merged := Some(GM.LaterTimes(remote.value, local.value, remote.value));
    } else {
      merged := flag.MergeValue(base, local, remote, preferLocal);
    }
  }

  method MergeGroupFields(id: Uuid, base: Group, local: Group, remote: Group) returns (result: Result<Group, PatchError>)
    ensures result == if GM.GroupConflicts(base, local, remote)
                      then Failure(FidelityConflict(GroupObject, Some(id), ModeledField))
                      else Success(GM.MergedGroup(base, local, remote))
  {
    hide Selected, Conflicts, CD.UnitsConflict, CD.MergedSide, GM.MergedTimes, GM.TimesConflict;
    var flag := new ConflictFlag();
    var preferLocal := GM.ModifiedAt(local) > GM.ModifiedAt(remote);
    var title := flag.MergeValue(base.title, local.title, remote.title, preferLocal);
    var times := MergeGroupTimes(flag, base.times, local.times, remote.times, preferLocal);
    var rawState := flag.MergeValue(base.rawState, local.rawState, remote.rawState, preferLocal);
    var opaqueXml := flag.MergeValue(base.opaqueXml, local.opaqueXml, remote.opaqueXml, preferLocal);
    var icon := flag.MergeValue((base.iconId, base.customIconId), (local.iconId, local.customIconId),
                                (remote.iconId, remote.customIconId), preferLocal);
    var data := MergeCustomDataFields(flag, GM.SideOf(base), GM.SideOf(local), GM.SideOf(remote), preferLocal,
                                      opaqueXml, rawState.nodeOrder);
    if flag.conflict {
      return Failure(FidelityConflict(GroupObject, Some(id), ModeledField));
    }
    return Success(remote.(
      entries := [], children := [], title := title, times := times, iconId := icon.0, customIconId := icon.1,
      customData := data.values, customDataBlocks := data.fidelity.blocks, opaqueXml := data.fidelity.opaqueXml,
      rawState := rawState.(nodeOrder := data.fidelity.nodeOrder)));
  }
}
