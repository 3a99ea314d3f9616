/** Merging one entry that all three versions hold. */
module EntryMerge {
  import opened Wrappers
  import opened IdOrder
  import opened TextOrder
  import opened Model
  import opened FieldMerge
  import opened AttributeKeys
  import opened Attributes
  import opened Normalize
  import opened Forest
  import opened SiblingMerge
  import CustomData

  // ---- Credentials ----

  /** A credential's projection together with every attribute reserved for it. */
  datatype Credential<T> = Credential(projected: Option<T>, attributes: Fields)

  function TotpUnit(e: Entry): Credential<TotpSpec> {
    Credential(e.totp, map key | key in e.attributes && IsTotpKey(key) :: e.attributes[key])
  }

  function PasskeyUnit(e: Entry): Credential<PasskeyRecord> {
    Credential(e.passkey, map key | key in e.attributes && IsPasskeyKey(key) :: e.attributes[key])
  }

  function PlainKeys(base: Entry, local: Entry, remote: Entry): set<Text> {
    set key | key in UnionKeys(base.attributes, local.attributes, remote.attributes) && !IsReserved(key)
  }

  // ---- History ----

  /** Appends the elements that are not there yet. */
  function AppendMissing<T(==)>(list: seq<T>, more: seq<T>): seq<T>
    decreases |more|
  {
    if more == [] then list
    else AppendMissing(if more[0] in list then list else list + [more[0]], more[1..])
  }

  function HistoryUnion(base: seq<Entry>, local: seq<Entry>, remote: seq<Entry>): seq<Entry> {
    AppendMissing(AppendMissing(remote, base), local)
  }

  /** Keeps the losing version of an entry in its history. */
  function WithLoser(e: Entry, loser: Entry): Entry {
    e.(history := AppendMissing(e.history, [HistorySnapshot(loser)]))
  }

  // ---- Fields ----

  function Icon(e: Entry): (Option<nat>, Option<Uuid>) {
    (e.iconId, e.customIconId)
  }

  function DataOf(e: Entry): CustomData.Side {
    CustomData.Side(e.customData, e.customDataBlocks)
  }

  predicate ScalarsConflict(base: Entry, local: Entry, remote: Entry) {
    || Conflicts(base.title, local.title, remote.title)
    || Conflicts(base.username, local.username, remote.username)
    || Conflicts(base.password, local.password, remote.password)
    || Conflicts(base.tags, local.tags, remote.tags)
    || Conflicts(base.rawState, local.rawState, remote.rawState)
    || Conflicts(base.opaqueXml, local.opaqueXml, remote.opaqueXml)
    || Conflicts(Icon(base), Icon(local), Icon(remote))
  }

  predicate AttributesConflict(base: Entry, local: Entry, remote: Entry) {
    || MapConflicts(base.attributes, local.attributes, remote.attributes, PlainKeys(base, local, remote))
    || Conflicts(TotpUnit(base), TotpUnit(local), TotpUnit(remote))
    || Conflicts(PasskeyUnit(base), PasskeyUnit(local), PasskeyUnit(remote))
  }

  /** Some field, key or credential was changed on both sides in different ways. */
  predicate EntryConflicts(base: Entry, local: Entry, remote: Entry) {
    || ScalarsConflict(base, local, remote)
    || AttributesConflict(base, local, remote)
    || MapConflicts(base.attachments, local.attachments, remote.attachments,
                    UnionKeys(base.attachments, local.attachments, remote.attachments))
    || CustomData.UnitsConflict(DataOf(base), DataOf(local), DataOf(remote))
  }

  predicate PrefersLocal(local: Entry, remote: Entry) {
    local.modifiedAt > remote.modifiedAt
  }

  function MergedAttributes(base: Entry, local: Entry, remote: Entry, preferLocal: bool): Fields {
    SelectedMap(base.attributes, local.attributes, remote.attributes, preferLocal, PlainKeys(base, local, remote))
    + Selected(TotpUnit(base), TotpUnit(local), TotpUnit(remote), preferLocal).attributes
    + Selected(PasskeyUnit(base), PasskeyUnit(local), PasskeyUnit(remote), preferLocal).attributes
  }

  /** The merged fields, before a losing version is recorded and slots are dropped. */
  function MergedFields(base: Entry, local: Entry, remote: Entry, preferLocal: bool): Entry {
    var rawState := Selected(base.rawState, local.rawState, remote.rawState, preferLocal);
    var opaqueXml := Selected(base.opaqueXml, local.opaqueXml, remote.opaqueXml, preferLocal);
    var icon := Selected(Icon(base), Icon(local), Icon(remote), preferLocal);
    var data := CustomData.MergedSide(DataOf(base), DataOf(local), DataOf(remote), preferLocal,
                                      opaqueXml, rawState.nodeOrder);
    Entry(remote.id,
          Selected(base.title, local.title, remote.title, preferLocal),
          Selected(base.username, local.username, remote.username, preferLocal),
          Selected(base.password, local.password, remote.password, preferLocal),
          Selected(base.tags, local.tags, remote.tags, preferLocal),
          MergedAttributes(base, local, remote, preferLocal),
          SelectedMap(base.attachments, local.attachments, remote.attachments, preferLocal,
                      UnionKeys(base.attachments, local.attachments, remote.attachments)),
          HistoryUnion(base.history, local.history, remote.history),
          Selected(TotpUnit(base), TotpUnit(local), TotpUnit(remote), preferLocal).projected,
          Selected(PasskeyUnit(base), PasskeyUnit(local), PasskeyUnit(remote), preferLocal).projected,
          icon.0, icon.1,
          if local.modifiedAt >= remote.modifiedAt then local.modifiedAt else remote.modifiedAt,
          remote.locationChangedAt,
          data.values,
          data.fidelity.blocks,
          rawState.(nodeOrder := data.fidelity.nodeOrder),
          data.fidelity.opaqueXml)
  }

  /** The version whose fields lose where both sides changed the same thing. */
  function Loser(local: Entry, remote: Entry): Entry {
    if PrefersLocal(local, remote) then remote else local
  }

  function MergedEntry(base: Entry, local: Entry, remote: Entry): Entry {
    var fields := MergedFields(base, local, remote, PrefersLocal(local, remote));
    NormalizeEntrySlots(
      if EntryConflicts(base, local, remote) then WithLoser(fields, Loser(local, remote)) else fields)
  }

  // ---- The merged record: fields, then place ----

  datatype RequiredSnapshot = RequiredSnapshot(entryId: Uuid, snapshot: Entry)

  /** A merged record and the losing versions that must reach storage with it. */
  datatype EntryResult = EntryResult(record: Flat<Entry>, required: seq<RequiredSnapshot>)

  function EntryLocation(base: Flat<Entry>, local: Flat<Entry>, remote: Flat<Entry>): Location
    requires base.parent.Some? && local.parent.Some? && remote.parent.Some?
  {
    MergeLocation(base.parent.value, local.parent.value, remote.parent.value,
                  local.value.locationChangedAt, remote.value.locationChangedAt)
  }

  /** The version whose place loses when both sides moved the entry. */
  function DisplacedVersion(location: Location, local: Entry, remote: Entry): Entry {
    if location.prefersLocal then remote else local
  }

  function RequiredForFields(base: Entry, local: Entry, remote: Entry): seq<RequiredSnapshot> {
    if EntryConflicts(base, local, remote) then [RequiredSnapshot(remote.id, HistorySnapshot(Loser(local, remote)))]
    else []
  }

  function MergedRecord(base: Flat<Entry>, local: Flat<Entry>, remote: Flat<Entry>): EntryResult
    requires base.parent.Some? && local.parent.Some? && remote.parent.Some?
  {
    var merged := MergedEntry(base.value, local.value, remote.value);
    var location := EntryLocation(base, local, remote);
    var moved := merged.(locationChangedAt := location.changedAt);
    var displaced := DisplacedVersion(location, local.value, remote.value);
    EntryResult(
      Flat(if location.conflict then WithLoser(moved, displaced) else moved,
           Some(location.parent),
           if location.prefersLocal then local.order else remote.order),
      RequiredForFields(base.value, local.value, remote.value)
      + (if location.conflict then [RequiredSnapshot(remote.value.id, HistorySnapshot(displaced))] else []))
  }

  // ---- Nothing is lost ----

  lemma {:induction false} AppendMissingKeeps<T>(list: seq<T>, more: seq<T>)
    ensures forall x :: x in AppendMissing(list, more) <==> x in list || x in more
    ensures list <= AppendMissing(list, more)
    decreases |more|
  {
    if more != [] {
      AppendMissingKeeps(if more[0] in list then list else list + [more[0]], more[1..]);
      assert more == [more[0]] + more[1..];
    }
  }

  /** History holds every snapshot of the three histories, remote's first and in order. */
  lemma HistoryUnionHoldsAll(base: seq<Entry>, local: seq<Entry>, remote: seq<Entry>)
    ensures remote <= HistoryUnion(base, local, remote)
    ensures forall e :: e in HistoryUnion(base, local, remote) <==> e in base || e in local || e in remote
  {
    AppendMissingKeeps(remote, base);
    AppendMissingKeeps(AppendMissing(remote, base), local);
  }

  /**
    One edited thing: a change made on one side only is taken; where both sides
    changed it, the later entry's value stands, remote's on a tie.
   */
  ghost predicate EditKept<T>(base: T, local: T, remote: T, merged: T, preferLocal: bool) {
    && (remote == base ==> merged == local)
    && (local == base ==> merged == remote)
    && (local != base && remote != base && local != remote ==> merged == if preferLocal then local else remote)
    && (local == remote ==> merged == local)
  }

  lemma SelectedKeepsEdits<T>(base: T, local: T, remote: T, preferLocal: bool)
    ensures EditKept(base, local, remote, Selected(base, local, remote, preferLocal), preferLocal)
  {
  }

  /** The same TOTP: the projection and every attribute reserved for it. */
  ghost predicate SameTotp(a: Entry, b: Entry) {
    a.totp == b.totp && forall key :: IsTotpKey(key) ==> Get(a.attributes, key) == Get(b.attributes, key)
  }

  ghost predicate SamePasskey(a: Entry, b: Entry) {
    a.passkey == b.passkey && forall key :: IsPasskeyKey(key) ==> Get(a.attributes, key) == Get(b.attributes, key)
  }

  /** `EditKept` for something several fields spell together. */
  ghost predicate WholeKept(localStayed: bool, remoteStayed: bool, alike: bool, asLocal: bool, asRemote: bool,
                            preferLocal: bool) {
    && (remoteStayed ==> asLocal)
    && (localStayed ==> asRemote)
    && (!localStayed && !remoteStayed && !alike ==> if preferLocal then asLocal else asRemote)
    && (alike ==> asLocal)
  }

  ghost predicate ScalarEditsKept(base: Entry, local: Entry, remote: Entry, merged: Entry, preferLocal: bool) {
    && EditKept(base.title, local.title, remote.title, merged.title, preferLocal)
    && EditKept(base.username, local.username, remote.username, merged.username, preferLocal)
    && EditKept(base.password, local.password, remote.password, merged.password, preferLocal)
    && EditKept(base.tags, local.tags, remote.tags, merged.tags, preferLocal)
    && EditKept((base.iconId, base.customIconId), (local.iconId, local.customIconId),
                (remote.iconId, remote.customIconId), (merged.iconId, merged.customIconId), preferLocal)
  }

  ghost predicate AttributeEditsKept(base: Entry, local: Entry, remote: Entry, merged: Entry, preferLocal: bool) {
    && (forall key :: !IsReserved(key) ==>
          EditKept(Get(base.attributes, key), Get(local.attributes, key), Get(remote.attributes, key),
                   Get(merged.attributes, key), preferLocal))
    && WholeKept(SameTotp(local, base), SameTotp(remote, base), SameTotp(local, remote),
                 SameTotp(merged, local), SameTotp(merged, remote), preferLocal)
    && WholeKept(SamePasskey(local, base), SamePasskey(remote, base), SamePasskey(local, remote),
                 SamePasskey(merged, local), SamePasskey(merged, remote), preferLocal)
  }

  ghost predicate AttachmentEditsKept(base: Entry, local: Entry, remote: Entry, merged: Entry, preferLocal: bool) {
    forall name ::
      EditKept(Get(base.attachments, name), Get(local.attachments, name), Get(remote.attachments, name),
               Get(merged.attachments, name), preferLocal)
  }

  ghost predicate CustomDataEditsKept(base: Entry, local: Entry, remote: Entry, merged: Entry, preferLocal: bool) {
    forall key ::
      EditKept(Get(base.customData, key), Get(local.customData, key), Get(remote.customData, key),
               Get(merged.customData, key), preferLocal)
  }

  /**
    Every edit of an entry's own contents is accounted for: one-sided edits are
    taken, contested ones go to the side modified later, remote on a tie.
   */
  ghost predicate EntryEditsKept(base: Entry, local: Entry, remote: Entry, merged: Entry) {
    var preferLocal := local.modifiedAt > remote.modifiedAt;
    && merged.id == remote.id
    && ScalarEditsKept(base, local, remote, merged, preferLocal)
    && AttributeEditsKept(base, local, remote, merged, preferLocal)
    && AttachmentEditsKept(base, local, remote, merged, preferLocal)
    && CustomDataEditsKept(base, local, remote, merged, preferLocal)
    && merged.modifiedAt == if preferLocal then local.modifiedAt else remote.modifiedAt
  }

  // ---- What counts as contested ----

  ghost predicate Contested<T>(base: T, local: T, remote: T) {
    local != base && remote != base && local != remote
  }

  /** Some field, key or credential was changed on both sides in different ways. */
  ghost predicate SomeEditContested(base: Entry, local: Entry, remote: Entry) {
    || Contested(base.title, local.title, remote.title)
    || Contested(base.username, local.username, remote.username)
    || Contested(base.password, local.password, remote.password)
    || Contested(base.tags, local.tags, remote.tags)
    || Contested(base.rawState, local.rawState, remote.rawState)
    || Contested(base.opaqueXml, local.opaqueXml, remote.opaqueXml)
    || Contested((base.iconId, base.customIconId), (local.iconId, local.customIconId),
                 (remote.iconId, remote.customIconId))
    || (exists key :: !IsReserved(key)
          && Contested(Get(base.attributes, key), Get(local.attributes, key), Get(remote.attributes, key)))
    || (!SameTotp(local, base) && !SameTotp(remote, base) && !SameTotp(local, remote))
    || (!SamePasskey(local, base) && !SamePasskey(remote, base) && !SamePasskey(local, remote))
    || (exists name ::
          Contested(Get(base.attachments, name), Get(local.attachments, name), Get(remote.attachments, name)))
    || (exists key :: Contested(Get(base.customData, key), Get(local.customData, key), Get(remote.customData, key)))
  }

  lemma SameUnits(a: Entry, b: Entry)
    ensures TotpUnit(a) == TotpUnit(b) <==> SameTotp(a, b)
    ensures PasskeyUnit(a) == PasskeyUnit(b) <==> SamePasskey(a, b)
  {
    hide IsTotpKey, IsPasskeyKey;
    if TotpUnit(a) == TotpUnit(b) {
      forall key | IsTotpKey(key) ensures Get(a.attributes, key) == Get(b.attributes, key) {
        assert Get(TotpUnit(a).attributes, key) == Get(TotpUnit(b).attributes, key);
      }
    }
    if PasskeyUnit(a) == PasskeyUnit(b) {
      forall key | IsPasskeyKey(key) ensures Get(a.attributes, key) == Get(b.attributes, key) {
        assert Get(PasskeyUnit(a).attributes, key) == Get(PasskeyUnit(b).attributes, key);
      }
    }
    if SameTotp(a, b) {
      SameAtEveryKey(TotpUnit(a).attributes, TotpUnit(b).attributes);
    }
    if SamePasskey(a, b) {
      SameAtEveryKey(PasskeyUnit(a).attributes, PasskeyUnit(b).attributes);
    }
  }

  lemma MapContested<V>(base: map<Text, V>, local: map<Text, V>, remote: map<Text, V>)
    ensures MapConflicts(base, local, remote, UnionKeys(base, local, remote))
       <==> exists key :: Contested(Get(base, key), Get(local, key), Get(remote, key))
  {
    if key :| Contested(Get(base, key), Get(local, key), Get(remote, key)) {
      assert key in UnionKeys(base, local, remote);
    }
  }

  lemma AttributesContested(base: Entry, local: Entry, remote: Entry)
    ensures MapConflicts(base.attributes, local.attributes, remote.attributes, PlainKeys(base, local, remote))
       <==> exists key :: !IsReserved(key)
              && Contested(Get(base.attributes, key), Get(local.attributes, key), Get(remote.attributes, key))
  {
    hide IsReserved;
    forall key | !IsReserved(key)
      && Contested(Get(base.attributes, key), Get(local.attributes, key), Get(remote.attributes, key))
      ensures key in PlainKeys(base, local, remote)
    {
    }
  }

  lemma CustomDataContested(base: CustomData.Side, local: CustomData.Side, remote: CustomData.Side)
    ensures CustomData.UnitsConflict(base, local, remote)
       <==> exists key :: Contested(Get(base.values, key), Get(local.values, key), Get(remote.values, key))
  {
    hide CustomData.View;
    forall key
      ensures CustomData.ValueOf(Get(CustomData.Units(base.values, base.blocks), key)) == Get(base.values, key)
      ensures CustomData.ValueOf(Get(CustomData.Units(local.values, local.blocks), key)) == Get(local.values, key)
      ensures CustomData.ValueOf(Get(CustomData.Units(remote.values, remote.blocks), key)) == Get(remote.values, key)
    {
      UnitValueAt(base, key);
      UnitValueAt(local, key);
      UnitValueAt(remote, key);
    }
    if key :| Contested(Get(base.values, key), Get(local.values, key), Get(remote.values, key)) {
      assert key in UnionKeys(CustomData.Units(base.values, base.blocks), CustomData.Units(local.values, local.blocks),
                              CustomData.Units(remote.values, remote.blocks));
    }
  }

  /** The merge's flag is set exactly when some edit is contested. */
  lemma ConflictsExactly(base: Entry, local: Entry, remote: Entry)
    ensures EntryConflicts(base, local, remote) <==> SomeEditContested(base, local, remote)
  {
    AttributesContested(base, local, remote);
    MapContested(base.attachments, local.attachments, remote.attachments);
    CustomDataContested(DataOf(base), DataOf(local), DataOf(remote));
    SameUnits(local, base);
    SameUnits(remote, base);
    SameUnits(local, remote);
    hide MapConflicts, CustomData.UnitsConflict, SameTotp, SamePasskey, TotpUnit, PasskeyUnit;
  }

  /** The plain range and the two credential ranges partition the merged attributes. */
  lemma MergedAttributeAt(base: Entry, local: Entry, remote: Entry, preferLocal: bool, key: Text)
    ensures Get(MergedAttributes(base, local, remote, preferLocal), key) ==
      if IsTotpKey(key) then
        Get(Selected(TotpUnit(base), TotpUnit(local), TotpUnit(remote), preferLocal).attributes, key)
      else if IsPasskeyKey(key) then
        Get(Selected(PasskeyUnit(base), PasskeyUnit(local), PasskeyUnit(remote), preferLocal).attributes, key)
      else SelectedAt(base.attributes, local.attributes, remote.attributes, preferLocal, key)
  {
    RangesDisjoint(key);
    var totp := Selected(TotpUnit(base), TotpUnit(local), TotpUnit(remote), preferLocal);
    var passkey := Selected(PasskeyUnit(base), PasskeyUnit(local), PasskeyUnit(remote), preferLocal);
    hide IsTotpKey, IsPasskeyKey;
    assert key in totp.attributes ==> IsTotpKey(key);
    assert key in passkey.attributes ==> IsPasskeyKey(key);
  }

  /** Both credentials are taken from one side as a whole. */
  lemma CredentialsAreAtomic(base: Entry, local: Entry, remote: Entry, merged: Entry, preferLocal: bool)
    requires merged.attributes == MergedAttributes(base, local, remote, preferLocal)
    requires merged.totp == Selected(TotpUnit(base), TotpUnit(local), TotpUnit(remote), preferLocal).projected
    requires merged.passkey == Selected(PasskeyUnit(base), PasskeyUnit(local), PasskeyUnit(remote), preferLocal).projected
    ensures TotpUnit(merged) == Selected(TotpUnit(base), TotpUnit(local), TotpUnit(remote), preferLocal)
    ensures PasskeyUnit(merged) == Selected(PasskeyUnit(base), PasskeyUnit(local), PasskeyUnit(remote), preferLocal)
  {
    var totp := Selected(TotpUnit(base), TotpUnit(local), TotpUnit(remote), preferLocal);
    var passkey := Selected(PasskeyUnit(base), PasskeyUnit(local), PasskeyUnit(remote), preferLocal);
    forall key ensures Get(TotpUnit(merged).attributes, key) == Get(totp.attributes, key)
               ensures Get(PasskeyUnit(merged).attributes, key) == Get(passkey.attributes, key)
    {
      MergedAttributeAt(base, local, remote, preferLocal, key);
      RangesDisjoint(key);
      assert key in totp.attributes ==> IsTotpKey(key);
      assert key in passkey.attributes ==> IsPasskeyKey(key);
    }
    SameAtEveryKey(TotpUnit(merged).attributes, totp.attributes);
    SameAtEveryKey(PasskeyUnit(merged).attributes, passkey.attributes);
  }

  lemma PlainEditsKept(base: Entry, local: Entry, remote: Entry, merged: Entry, preferLocal: bool, key: Text)
    requires merged.attributes == MergedAttributes(base, local, remote, preferLocal) && !IsReserved(key)
    ensures EditKept(Get(base.attributes, key), Get(local.attributes, key), Get(remote.attributes, key),
                     Get(merged.attributes, key), preferLocal)
  {
    MergedAttributeAt(base, local, remote, preferLocal, key);
  }

  lemma AttachmentEdit(base: map<Text, Attachment>, local: map<Text, Attachment>, remote: map<Text, Attachment>,
                       preferLocal: bool, name: Text)
    ensures EditKept(Get(base, name), Get(local, name), Get(remote, name),
                     Get(SelectedMap(base, local, remote, preferLocal, UnionKeys(base, local, remote)), name), preferLocal)
  {
  }

  lemma UnitValueAt(side: CustomData.Side, key: Text)
    ensures CustomData.ValueOf(Get(CustomData.Units(side.values, side.blocks), key)) == Get(side.values, key)
  {
  }

  lemma MergedUnitValue(b: Option<CustomData.Unit>, l: Option<CustomData.Unit>, r: Option<CustomData.Unit>,
                        preferLocal: bool)
    ensures CustomData.ValueOf(CustomData.MergedUnit(b, l, r, preferLocal))
         == Selected(CustomData.ValueOf(b), CustomData.ValueOf(l), CustomData.ValueOf(r), preferLocal)
  {
  }

  lemma CustomDataEdit(base: CustomData.Side, local: CustomData.Side, remote: CustomData.Side, preferLocal: bool,
                       key: Text)
    ensures var units := CustomData.MergedUnits(CustomData.Units(base.values, base.blocks),
                                                CustomData.Units(local.values, local.blocks),
                                                CustomData.Units(remote.values, remote.blocks), preferLocal);
      EditKept(Get(base.values, key), Get(local.values, key), Get(remote.values, key),
               Get(CustomData.UnitValues(units), key), preferLocal)
  {
    var b := CustomData.Units(base.values, base.blocks);
    var l := CustomData.Units(local.values, local.blocks);
    var r := CustomData.Units(remote.values, remote.blocks);
    UnitValueAt(base, key);
    UnitValueAt(local, key);
    UnitValueAt(remote, key);
    assert CustomData.MergedUnit(None, None, None, preferLocal) == None;
    hide CustomData.Units, CustomData.View, Selected;
    var units := CustomData.MergedUnits(b, l, r, preferLocal);
    var merged := CustomData.MergedUnit(Get(b, key), Get(l, key), Get(r, key), preferLocal);
    assert Get(CustomData.UnitValues(units), key) == CustomData.ValueOf(merged);
    MergedUnitValue(Get(b, key), Get(l, key), Get(r, key), preferLocal);
    SelectedKeepsEdits(Get(base.values, key), Get(local.values, key), Get(remote.values, key), preferLocal);
  }

  /** Every edit of the three versions is accounted for in the merged fields. */
  lemma MergedFieldsKeepEdits(base: Entry, local: Entry, remote: Entry, preferLocal: bool)
    ensures var merged := MergedFields(base, local, remote, preferLocal);
      && ScalarEditsKept(base, local, remote, merged, preferLocal)
      && AttributeEditsKept(base, local, remote, merged, preferLocal)
      && AttachmentEditsKept(base, local, remote, merged, preferLocal)
      && CustomDataEditsKept(base, local, remote, merged, preferLocal)
  {
    var merged := MergedFields(base, local, remote, preferLocal);
    CredentialsAreAtomic(base, local, remote, merged, preferLocal);
    SameUnits(local, base);
    SameUnits(remote, base);
    SameUnits(local, remote);
    SameUnits(merged, local);
    SameUnits(merged, remote);
    forall key | !IsReserved(key)
      ensures EditKept(Get(base.attributes, key), Get(local.attributes, key), Get(remote.attributes, key),
                       Get(merged.attributes, key), preferLocal)
    {
      PlainEditsKept(base, local, remote, merged, preferLocal, key);
    }
    forall name
      ensures EditKept(Get(base.attachments, name), Get(local.attachments, name), Get(remote.attachments, name),
                       Get(merged.attachments, name), preferLocal)
    {
      AttachmentEdit(base.attachments, local.attachments, remote.attachments, preferLocal, name);
    }
    forall key
      ensures EditKept(Get(base.customData, key), Get(local.customData, key), Get(remote.customData, key),
                       Get(merged.customData, key), preferLocal)
    {
      CustomDataEdit(DataOf(base), DataOf(local), DataOf(remote), preferLocal, key);
    }
  }

  /** The same entry up to its history, its place and its fidelity slots. */
  ghost predicate SameContent(a: Entry, b: Entry) {
    a == b.(history := a.history, locationChangedAt := a.locationChangedAt, rawState := a.rawState,
            opaqueXml := a.opaqueXml, customDataBlocks := a.customDataBlocks)
  }

  lemma MergedRecordContent(base: Flat<Entry>, local: Flat<Entry>, remote: Flat<Entry>)
    requires base.parent.Some? && local.parent.Some? && remote.parent.Some?
    ensures SameContent(MergedRecord(base, local, remote).record.value,
                        MergedFields(base.value, local.value, remote.value, PrefersLocal(local.value, remote.value)))
  {
  }

  lemma SameContentKeepsEdits(base: Entry, local: Entry, remote: Entry, merged: Entry, again: Entry)
    requires EntryEditsKept(base, local, remote, merged) && SameContent(again, merged)
    ensures EntryEditsKept(base, local, remote, again)
  {
    hide EditKept, WholeKept, IsReserved, Get;
    assert forall e :: SameTotp(again, e) <==> SameTotp(merged, e);
    assert forall e :: SamePasskey(again, e) <==> SamePasskey(merged, e);
  }

  lemma MergedEntryHistory(base: Entry, local: Entry, remote: Entry)
    ensures var history := MergedEntry(base, local, remote).history;
      && remote.history <= history
      && forall e :: e in history <==>
           || e in base.history || e in local.history || e in remote.history
           || (EntryConflicts(base, local, remote) && e == HistorySnapshot(Loser(local, remote)))
  {
    hide EntryConflicts, HistorySnapshot, Loser;
    var union := HistoryUnion(base.history, local.history, remote.history);
    HistoryUnionHoldsAll(base.history, local.history, remote.history);
    AppendMissingKeeps(union, [HistorySnapshot(Loser(local, remote))]);
    assert MergedFields(base, local, remote, PrefersLocal(local, remote)).history == union;
  }

  /** The version that loses the contested fields, and the one that loses the contested place. */
  ghost predicate IsLosing(base: Flat<Entry>, local: Flat<Entry>, remote: Flat<Entry>, snapshot: Entry) {
    || (SomeEditContested(base.value, local.value, remote.value)
        && snapshot == HistorySnapshot(if local.value.modifiedAt > remote.value.modifiedAt then remote.value
                                       else local.value))
    || (Contested(base.parent, local.parent, remote.parent)
        && snapshot == HistorySnapshot(if local.value.locationChangedAt.GetOr(0) > remote.value.locationChangedAt.GetOr(0)
                                       then remote.value else local.value))
  }

  /** The merged history is the union of the three, remote's first, and of the versions that lost. */
  ghost predicate HistoryKept(base: Flat<Entry>, local: Flat<Entry>, remote: Flat<Entry>, history: seq<Entry>) {
    && remote.value.history <= history
    && forall e :: e in history <==>
         || e in base.value.history || e in local.value.history || e in remote.value.history
         || IsLosing(base, local, remote, e)
  }

  /** Exactly the versions that lost must be stored. */
  ghost predicate LosersRequired(base: Flat<Entry>, local: Flat<Entry>, remote: Flat<Entry>,
                                 required: seq<RequiredSnapshot>) {
    forall r :: r in required <==> r.entryId == remote.value.id && IsLosing(base, local, remote, r.snapshot)
  }

  /** Local's place stands where only local moved the record, or both did and local later. */
  ghost predicate LocalStands(base: Option<Uuid>, local: Option<Uuid>, remote: Option<Uuid>,
                              localAt: Option<nat>, remoteAt: Option<nat>) {
    local != base && (remote == base || localAt.GetOr(0) > remoteAt.GetOr(0))
  }

  /** A move's time goes with the place, and is the later one where both sides moved the record alike. */
  ghost predicate PlaceKept(base: Option<Uuid>, local: Option<Uuid>, remote: Option<Uuid>, merged: Option<Uuid>,
                            localAt: Option<nat>, remoteAt: Option<nat>, mergedAt: Option<nat>) {
    var localStands := LocalStands(base, local, remote, localAt, remoteAt);
    && merged == (if localStands then local else remote)
    && mergedAt == (if local != base && remote == local then
                      Some(if localAt.GetOr(0) > remoteAt.GetOr(0) then localAt.GetOr(0) else remoteAt.GetOr(0))
                    else if localStands then localAt else remoteAt)
  }

  lemma LocationContested(base: Flat<Entry>, local: Flat<Entry>, remote: Flat<Entry>)
    requires base.parent.Some? && local.parent.Some? && remote.parent.Some?
    ensures var location := EntryLocation(base, local, remote);
      && (location.conflict <==> Contested(base.parent, local.parent, remote.parent))
      && (location.conflict ==>
            DisplacedVersion(location, local.value, remote.value)
            == if local.value.locationChangedAt.GetOr(0) > remote.value.locationChangedAt.GetOr(0) then remote.value
               else local.value)
  {
  }

  /** The history a merged record ends up with, and what it requires. */
  lemma RecordHistory(base: Flat<Entry>, local: Flat<Entry>, remote: Flat<Entry>)
    requires base.parent.Some? && local.parent.Some? && remote.parent.Some?
    ensures var (merged, location) := (MergedRecord(base, local, remote), EntryLocation(base, local, remote));
      var before := MergedEntry(base.value, local.value, remote.value).history;
      var displaced := HistorySnapshot(DisplacedVersion(location, local.value, remote.value));
      && merged.record.value.history == (if location.conflict then AppendMissing(before, [displaced]) else before)
      && merged.required == RequiredForFields(base.value, local.value, remote.value)
           + (if location.conflict then [RequiredSnapshot(remote.value.id, displaced)] else [])
  {
    hide MergedEntry, HistorySnapshot, EntryConflicts, AppendMissing, MergeLocation, RequiredForFields;
  }

  lemma MergedRecordHistory(base: Flat<Entry>, local: Flat<Entry>, remote: Flat<Entry>)
    requires base.parent.Some? && local.parent.Some? && remote.parent.Some?
    ensures var merged := MergedRecord(base, local, remote);
      && HistoryKept(base, local, remote, merged.record.value.history)
      && LosersRequired(base, local, remote, merged.required)
  {
    hide MergedRecord, MergedEntry, HistorySnapshot, EntryConflicts, SomeEditContested, AppendMissing, EntryLocation,
         DisplacedVersion;
    var location := EntryLocation(base, local, remote);
    var before := MergedEntry(base.value, local.value, remote.value).history;
    var displaced := DisplacedVersion(location, local.value, remote.value);
    RecordHistory(base, local, remote);
    LocationContested(base, local, remote);
    ConflictsExactly(base.value, local.value, remote.value);
    MergedEntryHistory(base.value, local.value, remote.value);
    AppendMissingKeeps(before, [HistorySnapshot(displaced)]);
  }

  lemma MergedPlace(base: Flat<Entry>, local: Flat<Entry>, remote: Flat<Entry>)
    requires base.parent.Some? && local.parent.Some? && remote.parent.Some?
    ensures var merged := MergedRecord(base, local, remote).record;
      var (localAt, remoteAt) := (local.value.locationChangedAt, remote.value.locationChangedAt);
      && PlaceKept(base.parent, local.parent, remote.parent, merged.parent, localAt, remoteAt,
                   merged.value.locationChangedAt)
      && merged.order == if LocalStands(base.parent, local.parent, remote.parent, localAt, remoteAt) then local.order
                         else remote.order
  {
    hide MergedEntry, HistorySnapshot, EntryConflicts, AppendMissing;
  }

  /** Every snapshot a merged record requires is in its own history. */
  lemma RequiredAreKept(base: Flat<Entry>, local: Flat<Entry>, remote: Flat<Entry>)
    requires base.parent.Some? && local.parent.Some? && remote.parent.Some?
    ensures var merged := MergedRecord(base, local, remote);
      forall r :: r in merged.required ==>
        r.entryId == remote.value.id && r.snapshot in merged.record.value.history
  {
    hide MergedRecord, IsLosing;
    MergedRecordHistory(base, local, remote);
  }

  /**
    No edit is lost: one-sided changes are taken, contested ones go to the later
    entry (remote on ties), both credentials come from one side as a whole, the
    place is the later mover's, and the history is exactly that of the three
    versions and of whatever version lost, which must also be stored.
   */
  lemma NoLostEdit(base: Flat<Entry>, local: Flat<Entry>, remote: Flat<Entry>)
    requires base.parent.Some? && local.parent.Some? && remote.parent.Some?
    ensures var merged := MergedRecord(base, local, remote);
      && EntryEditsKept(base.value, local.value, remote.value, merged.record.value)
      && HistoryKept(base, local, remote, merged.record.value.history)
      && LosersRequired(base, local, remote, merged.required)
      && PlaceKept(base.parent, local.parent, remote.parent, merged.record.parent,
                   local.value.locationChangedAt, remote.value.locationChangedAt,
                   merged.record.value.locationChangedAt)
  {
    var b, l, r := base.value, local.value, remote.value;
    MergedFieldsKeepEdits(b, l, r, PrefersLocal(l, r));
    MergedRecordContent(base, local, remote);
    MergedRecordHistory(base, local, remote);
    MergedPlace(base, local, remote);
    FieldsKeepEdits(b, l, r);
    hide MergedRecord, MergedFields, EntryEditsKept, SameContent, HistoryKept, LosersRequired, PlaceKept;
    SameContentKeepsEdits(b, l, r, MergedFields(b, l, r, PrefersLocal(l, r)), MergedRecord(base, local, remote).record.value);
  }

  lemma FieldsKeepEdits(base: Entry, local: Entry, remote: Entry)
    ensures EntryEditsKept(base, local, remote, MergedFields(base, local, remote, PrefersLocal(local, remote)))
  {
    hide ScalarEditsKept, AttributeEditsKept, AttachmentEditsKept, CustomDataEditsKept, Selected, SelectedMap,
         MergedAttributes, HistoryUnion, CustomData.MergedSide;
    MergedFieldsKeepEdits(base, local, remote, PrefersLocal(local, remote));
  }
}
