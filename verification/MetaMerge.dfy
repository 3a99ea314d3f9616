/** The vault's own fields: their checks, and their merge. */
module MetaMerge {
  import opened Wrappers
  import opened IdOrder
  import opened FidelitySlots
  import opened Model
  import opened FieldMerge
  import opened Forest
  import opened Tree
  import opened SiblingOrder
  import CD = CustomData

  // ---- Identifiers used twice ----

  function FirstRepeat(ids: seq<Uuid>, seen: set<Uuid>): Option<Uuid> {
    if ids == [] then None
    else if ids[0] in seen then Some(ids[0])
    else FirstRepeat(ids[1..], seen + {ids[0]})
  }

  function IconIds(icons: seq<CustomIcon>): seq<Uuid> {
    seq(|icons|, i requires 0 <= i < |icons| => icons[i].id)
  }

  function DeletedIds(objects: seq<DeletedObject>): seq<Uuid> {
    seq(|objects|, i requires 0 <= i < |objects| => objects[i].id)
  }

  function EnsureUniqueMetaIds(vault: Vault, side: Version): Outcome<PatchError> {
    var icon := FirstRepeat(IconIds(vault.customIcons), {});
    var deleted := FirstRepeat(DeletedIds(vault.deletedObjects), {});
    if icon.Some? then Fail(DuplicateCustomIcon(side, icon.value))
    else if deleted.Some? then Fail(DuplicateDeletedObject(side, deleted.value))
    else Pass
  }

  lemma {:induction false} FirstRepeatIsExact(ids: seq<Uuid>, seen: set<Uuid>)
    ensures FirstRepeat(ids, seen).None? <==> Distinct(ids) && forall id :: id in ids ==> id !in seen
    decreases |ids|
  {
    if ids != [] && ids[0] !in seen {
      FirstRepeatIsExact(ids[1..], seen + {ids[0]});
      assert ids == [ids[0]] + ids[1..];
      DistinctTail(ids);
    }
  }

  /** The check accepts exactly the vaults whose icons and tombstones repeat no identifier. */
  lemma UniqueMetaIdsIsExact(vault: Vault, side: Version)
    ensures EnsureUniqueMetaIds(vault, side).Pass?
       <==> Distinct(IconIds(vault.customIcons)) && Distinct(DeletedIds(vault.deletedObjects))
  {
    FirstRepeatIsExact(IconIds(vault.customIcons), {});
    FirstRepeatIsExact(DeletedIds(vault.deletedObjects), {});
  }

  lemma UniqueMetaIdErrors(vault: Vault, side: Version)
    ensures var r := EnsureUniqueMetaIds(vault, side);
      r.Fail? ==> (r.error.DuplicateCustomIcon? || r.error.DuplicateDeletedObject?) && r.error.side == side
  {
    hide FirstRepeat;
  }

  // ---- Fidelity that cannot be merged ----

  /** Fidelity XML changed on both sides has no merged form. */
  function EnsureFidelity(base: seq<OpaqueXmlFragment>, local: seq<OpaqueXmlFragment>, remote: seq<OpaqueXmlFragment>,
                          kind: ObjectKind, id: Option<Uuid>): Outcome<PatchError> {
    if Conflicts(base, local, remote) then Fail(FidelityConflict(kind, id, OpaqueXmlField)) else Pass
  }

  function EnsureRebase(base: CD.Side, local: CD.Side, remoteBlocks: seq<CD.Block>, kind: ObjectKind, id: Option<Uuid>)
    : Outcome<PatchError>
  {
    if CD.RebaseRepresentable(base, local, remoteBlocks) then Pass
    else Fail(FidelityConflict(kind, id, CustomDataField))
  }

  function Both(first: Outcome<PatchError>, second: Outcome<PatchError>): Outcome<PatchError> {
    if first.Fail? then first else second
  }

  function EntryFidelity(base: FlatVault, local: FlatVault, remote: FlatVault, id: Uuid): Outcome<PatchError> {
    if id in base.entries && id in local.entries && id in remote.entries then
      var b, l, r := base.entries[id].value, local.entries[id].value, remote.entries[id].value;
      Both(EnsureFidelity(b.opaqueXml, l.opaqueXml, r.opaqueXml, EntryObject, Some(id)),
           EnsureRebase(CD.Side(b.customData, b.customDataBlocks), CD.Side(l.customData, l.customDataBlocks),
                        r.customDataBlocks, EntryObject, Some(id)))
    else Pass
  }

  function GroupFidelity(base: FlatVault, local: FlatVault, remote: FlatVault, id: Uuid): Outcome<PatchError> {
    if id in base.groups && id in local.groups && id in remote.groups then
      var b, l, r := base.groups[id].value, local.groups[id].value, remote.groups[id].value;
      Both(EnsureFidelity(b.opaqueXml, l.opaqueXml, r.opaqueXml, GroupObject, Some(id)),
           EnsureRebase(CD.Side(b.customData, b.customDataBlocks), CD.Side(l.customData, l.customDataBlocks),
                        r.customDataBlocks, GroupObject, Some(id)))
    else Pass
  }

  function AllEntryFidelity(base: FlatVault, local: FlatVault, remote: FlatVault, ids: seq<Uuid>): Outcome<PatchError> {
    if ids == [] then Pass
    else Both(EntryFidelity(base, local, remote, ids[0]), AllEntryFidelity(base, local, remote, ids[1..]))
  }

  function AllGroupFidelity(base: FlatVault, local: FlatVault, remote: FlatVault, ids: seq<Uuid>): Outcome<PatchError> {
    if ids == [] then Pass
    else Both(GroupFidelity(base, local, remote, ids[0]), AllGroupFidelity(base, local, remote, ids[1..]))
  }

  function MetaSide(vault: Vault): CD.Side {
    CD.Side(vault.metaCustomData, vault.metaCustomDataBlocks)
  }

  function MetaFidelity(base: Vault, local: Vault, remote: Vault): Outcome<PatchError> {
    Both(EnsureFidelity(base.metaOpaqueXml, local.metaOpaqueXml, remote.metaOpaqueXml, MetaObject, None),
    Both(EnsureFidelity(base.rootOpaqueXml, local.rootOpaqueXml, remote.rootOpaqueXml, RootObject, None),
         EnsureRebase(MetaSide(base), MetaSide(local), remote.metaCustomDataBlocks, MetaObject, None)))
  }

  function EnsureFidelityRepresentable(base: Vault, local: Vault, remote: Vault,
                                       b: FlatVault, l: FlatVault, r: FlatVault): Outcome<PatchError> {
    Both(MetaFidelity(base, local, remote),
    Both(AllEntryFidelity(b, l, r, Ascending(b.entries.Keys)),
         AllGroupFidelity(b, l, r, Ascending(b.groups.Keys))))
  }

  lemma {:induction false} FidelityErrors(b: FlatVault, l: FlatVault, r: FlatVault, ids: seq<Uuid>)
    ensures AllEntryFidelity(b, l, r, ids).Fail? ==> AllEntryFidelity(b, l, r, ids).error.FidelityConflict?
    ensures AllGroupFidelity(b, l, r, ids).Fail? ==> AllGroupFidelity(b, l, r, ids).error.FidelityConflict?
  {
    if ids != [] {
      FidelityErrors(b, l, r, ids[1..]);
    }
  }

  // ---- Exactly when fidelity can be merged ----

  /** Opaque content changed on at most one side, and custom-data blocks that local's change can be rebased on. */
  predicate RecordMerges(base: seq<OpaqueXmlFragment>, local: seq<OpaqueXmlFragment>, remote: seq<OpaqueXmlFragment>,
                         b: CD.Side, l: CD.Side, remoteBlocks: seq<CD.Block>) {
    !Conflicts(base, local, remote) && CD.RebaseRepresentable(b, l, remoteBlocks)
  }

  ghost predicate EntryFidelityMerges(base: FlatVault, local: FlatVault, remote: FlatVault, id: Uuid) {
    id in base.entries && id in local.entries && id in remote.entries ==>
      var b, l, r := base.entries[id].value, local.entries[id].value, remote.entries[id].value;
      RecordMerges(b.opaqueXml, l.opaqueXml, r.opaqueXml, CD.Side(b.customData, b.customDataBlocks),
                   CD.Side(l.customData, l.customDataBlocks), r.customDataBlocks)
  }

  ghost predicate GroupFidelityMerges(base: FlatVault, local: FlatVault, remote: FlatVault, id: Uuid) {
    id in base.groups && id in local.groups && id in remote.groups ==>
      var b, l, r := base.groups[id].value, local.groups[id].value, remote.groups[id].value;
      RecordMerges(b.opaqueXml, l.opaqueXml, r.opaqueXml, CD.Side(b.customData, b.customDataBlocks),
                   CD.Side(l.customData, l.customDataBlocks), r.customDataBlocks)
  }

  ghost predicate FidelityMerges(base: Vault, local: Vault, remote: Vault, b: FlatVault, l: FlatVault, r: FlatVault) {
    && RecordMerges(base.metaOpaqueXml, local.metaOpaqueXml, remote.metaOpaqueXml, MetaSide(base), MetaSide(local),
                    remote.metaCustomDataBlocks)
    && !Conflicts(base.rootOpaqueXml, local.rootOpaqueXml, remote.rootOpaqueXml)
    && (forall id :: id in b.entries ==> EntryFidelityMerges(b, l, r, id))
    && (forall id :: id in b.groups ==> GroupFidelityMerges(b, l, r, id))
  }

  lemma RecordMergesExactly(b: FlatVault, l: FlatVault, r: FlatVault, id: Uuid)
    ensures EntryFidelity(b, l, r, id).Pass? <==> EntryFidelityMerges(b, l, r, id)
    ensures GroupFidelity(b, l, r, id).Pass? <==> GroupFidelityMerges(b, l, r, id)
  {
    hide Conflicts, CD.RebaseRepresentable;
  }

  lemma {:induction false} ListsMergeExactly(b: FlatVault, l: FlatVault, r: FlatVault, ids: seq<Uuid>)
    ensures AllEntryFidelity(b, l, r, ids).Pass? <==> forall id :: id in ids ==> EntryFidelityMerges(b, l, r, id)
    ensures AllGroupFidelity(b, l, r, ids).Pass? <==> forall id :: id in ids ==> GroupFidelityMerges(b, l, r, id)
  {
    hide EntryFidelity, GroupFidelity, EntryFidelityMerges, GroupFidelityMerges;
    if ids != [] {
      RecordMergesExactly(b, l, r, ids[0]);
      ListsMergeExactly(b, l, r, ids[1..]);
      assert ids == [ids[0]] + ids[1..];
    }
  }

  /** The check passes exactly when no fidelity was changed on both sides in ways that cannot be joined. */
  lemma RepresentableIsExact(base: Vault, local: Vault, remote: Vault, b: FlatVault, l: FlatVault, r: FlatVault)
    ensures EnsureFidelityRepresentable(base, local, remote, b, l, r).Pass?
       <==> FidelityMerges(base, local, remote, b, l, r)
  {
    hide Conflicts, CD.RebaseRepresentable, EntryFidelityMerges, GroupFidelityMerges, AllEntryFidelity, AllGroupFidelity;
    var entries, groups := Ascending(b.entries.Keys), Ascending(b.groups.Keys);
    ListsMergeExactly(b, l, r, entries);
    ListsMergeExactly(b, l, r, groups);
    assert forall id :: id in entries <==> id in Elements(entries);
    assert forall id :: id in groups <==> id in Elements(groups);
  }

  lemma RepresentableErrors(base: Vault, local: Vault, remote: Vault, b: FlatVault, l: FlatVault, r: FlatVault)
    ensures var e := EnsureFidelityRepresentable(base, local, remote, b, l, r); e.Fail? ==> e.error.FidelityConflict?
  {
    hide AllEntryFidelity, AllGroupFidelity, CD.RebaseRepresentable, Conflicts;
    FidelityErrors(b, l, r, Ascending(b.entries.Keys));
    FidelityErrors(b, l, r, Ascending(b.groups.Keys));
  }

  // ---- Timestamps ----

  const I64_MIN: int := -0x8000_0000_0000_0000

  function LaterOption(a: Option<int>, b: Option<int>): Option<int> {
    if a.None? then b else if b.None? then a else if a.value >= b.value then a else b
  }

  function MergedChangedAt(base: Option<int>, local: Option<int>, remote: Option<int>): Option<int> {
    if local == base then remote else if remote == base then local else LaterOption(local, remote)
  }

  datatype Stamped<T> = Stamped(value: T, changedAt: Option<int>)

  predicate LaterChange(local: Option<int>, remote: Option<int>) {
    local.GetOr(I64_MIN) > remote.GetOr(I64_MIN)
  }

  /** A value with its own change time: the time comes from the sides that hold the selected value. */
  function MergedStamped<T(==)>(base: Stamped<T>, local: Stamped<T>, remote: Stamped<T>): Stamped<T> {
    var value := Selected(base.value, local.value, remote.value, LaterChange(local.changedAt, remote.changedAt));
    Stamped(value,
      if local.value == value && remote.value == value then
        if base.value == value then MergedChangedAt(base.changedAt, local.changedAt, remote.changedAt)
        else LaterOption(local.changedAt, remote.changedAt)
      else if local.value == value then local.changedAt
      else remote.changedAt)
  }

  /** The merged time is the time of a side that holds the merged value. */
  lemma StampBelongsToValue<T>(base: Stamped<T>, local: Stamped<T>, remote: Stamped<T>)
    ensures var m := MergedStamped(base, local, remote);
      || (m.value == local.value && m.changedAt == local.changedAt)
      || (m.value == remote.value && m.changedAt == remote.changedAt)
  {
  }

  // ---- Tombstones ----

  function DeletedById(objects: seq<DeletedObject>): map<Uuid, DeletedObject> {
    if objects == [] then map[]
    else DeletedById(objects[..|objects| - 1])[objects[|objects| - 1].id := objects[|objects| - 1]]
  }

  function DeletionTime(d: Option<DeletedObject>): int {
    if d.Some? then d.value.deletedAt else I64_MIN
  }

  function SelectedDeletion(b: map<Uuid, DeletedObject>, l: map<Uuid, DeletedObject>, r: map<Uuid, DeletedObject>,
                            id: Uuid): Option<DeletedObject> {
    Selected(Get(b, id), Get(l, id), Get(r, id), DeletionTime(Get(l, id)) > DeletionTime(Get(r, id)))
  }

  function DeletionsOf(b: map<Uuid, DeletedObject>, l: map<Uuid, DeletedObject>, r: map<Uuid, DeletedObject>,
                       ids: seq<Uuid>): seq<DeletedObject> {
    if ids == [] then []
    else
      var d := SelectedDeletion(b, l, r, ids[0]);
      (if d.Some? then [d.value] else []) + DeletionsOf(b, l, r, ids[1..])
  }

  function MergedDeletions(base: seq<DeletedObject>, local: seq<DeletedObject>, remote: seq<DeletedObject>)
    : seq<DeletedObject>
  {
    var b, l, r := DeletedById(base), DeletedById(local), DeletedById(remote);
    DeletionsOf(b, l, r, Ascending(UnionKeys(b, l, r)))
  }

  /** The tombstones that do not name a live object. */
  function Buried(objects: seq<DeletedObject>, live: set<Uuid>): seq<DeletedObject> {
    if objects == [] then []
    else (if objects[0].id in live then [] else [objects[0]]) + Buried(objects[1..], live)
  }

  lemma {:induction false} BuriedAreDead(objects: seq<DeletedObject>, live: set<Uuid>)
    ensures forall d :: d in Buried(objects, live) <==> d in objects && d.id !in live
  {
    if objects != [] {
      BuriedAreDead(objects[1..], live);
      assert objects == [objects[0]] + objects[1..];
    }
  }

  // ---- Icons ----

  function IconsById(icons: seq<CustomIcon>): map<Uuid, CustomIcon> {
    if icons == [] then map[]
    else IconsById(icons[..|icons| - 1])[icons[|icons| - 1].id := icons[|icons| - 1]]
  }

  predicate SameIcon(a: CustomIcon, b: CustomIcon) {
    a.id == b.id && a.data == b.data && a.name == b.name
  }

  function SelectedIcon(b: Option<CustomIcon>, l: Option<CustomIcon>, r: Option<CustomIcon>, id: Uuid)
    : Result<Option<CustomIcon>, PatchError>
  {
    if b.None? then
      if l.Some? && r.Some? then
        if SameIcon(l.value, r.value) then Success(r) else Failure(ConcurrentObjectAddition(id))
      else if l.Some? then Success(l) else Success(r)
    else if l.Some? && r.Some? then
      if SameIcon(l.value, b.value) then Success(r)
      else if SameIcon(r.value, b.value) then Success(l)
      else if SameIcon(l.value, r.value) then Success(r)
      else Failure(FidelityConflict(MetaObject, None, CustomIconField))
    else if l.Some? && !SameIcon(b.value, l.value) then Success(l)
    else if r.Some? && !SameIcon(b.value, r.value) then Success(r)
    else Success(None)
  }

  function StampIfSame(selected: CustomIcon, candidate: Option<CustomIcon>): Option<int> {
    if candidate.Some? && SameIcon(selected, candidate.value) then candidate.value.lastModified else None
  }

  function StampedIcon(selected: CustomIcon, b: Option<CustomIcon>, l: Option<CustomIcon>, r: Option<CustomIcon>)
    : CustomIcon
  {
    selected.(lastModified :=
      LaterOption(StampIfSame(selected, b), LaterOption(StampIfSame(selected, l), StampIfSame(selected, r))))
  }

  function IconsOf(b: map<Uuid, CustomIcon>, l: map<Uuid, CustomIcon>, r: map<Uuid, CustomIcon>, ids: seq<Uuid>)
    : Result<seq<CustomIcon>, PatchError>
  {
    if ids == [] then Success([])
    else
      var first :- SelectedIcon(Get(b, ids[0]), Get(l, ids[0]), Get(r, ids[0]), ids[0]);
      var rest :- IconsOf(b, l, r, ids[1..]);
      Success((if first.Some? then [StampedIcon(first.value, Get(b, ids[0]), Get(l, ids[0]), Get(r, ids[0]))] else [])
              + rest)
  }

  function MergedIcons(base: seq<CustomIcon>, local: seq<CustomIcon>, remote: seq<CustomIcon>)
    : Result<seq<CustomIcon>, PatchError>
  {
    var b, l, r := IconsById(base), IconsById(local), IconsById(remote);
    IconsOf(b, l, r, Ascending(UnionKeys(b, l, r)))
  }

  /** Icons clash only when both sides add or redraw the same one differently. */
  predicate IconClash(b: map<Uuid, CustomIcon>, l: map<Uuid, CustomIcon>, r: map<Uuid, CustomIcon>, id: Uuid) {
    && id in l && id in r && !SameIcon(l[id], r[id])
    && (id in b ==> !SameIcon(l[id], b[id]) && !SameIcon(r[id], b[id]))
  }

  lemma SelectedIconFails(b: map<Uuid, CustomIcon>, l: map<Uuid, CustomIcon>, r: map<Uuid, CustomIcon>, id: Uuid)
    ensures var icon := SelectedIcon(Get(b, id), Get(l, id), Get(r, id), id);
      && (icon.Failure? <==> IconClash(b, l, r, id))
      && (icon.Failure? ==> icon.error.ConcurrentObjectAddition? || icon.error.FidelityConflict?)
  {
  }

  lemma {:induction false} IconsOfIsExact(
    b: map<Uuid, CustomIcon>, l: map<Uuid, CustomIcon>, r: map<Uuid, CustomIcon>, ids: seq<Uuid>)
    ensures var icons := IconsOf(b, l, r, ids);
      && (icons.Success? <==> forall id :: id in ids ==> !IconClash(b, l, r, id))
      && (icons.Failure? ==> icons.error.ConcurrentObjectAddition? || icons.error.FidelityConflict?)
  {
    hide IconClash, SelectedIcon, StampedIcon;
    if ids != [] {
      IconsOfIsExact(b, l, r, ids[1..]);
      assert ids == [ids[0]] + ids[1..];
      SelectedIconFails(b, l, r, ids[0]);
    }
  }

  ghost predicate NoIconClash(b: map<Uuid, CustomIcon>, l: map<Uuid, CustomIcon>, r: map<Uuid, CustomIcon>) {
    forall id :: id in l && id in r ==> !IconClash(b, l, r, id)
  }

  lemma AllIconsAreExact(b: map<Uuid, CustomIcon>, l: map<Uuid, CustomIcon>, r: map<Uuid, CustomIcon>)
    ensures var icons := IconsOf(b, l, r, Ascending(UnionKeys(b, l, r)));
      && (icons.Success? <==> NoIconClash(b, l, r))
      && (icons.Failure? ==> icons.error.ConcurrentObjectAddition? || icons.error.FidelityConflict?)
  {
    hide SelectedIcon, StampedIcon, SameIcon;
    var ids := Ascending(UnionKeys(b, l, r));
    IconsOfIsExact(b, l, r, ids);
    forall id ensures id in ids <==> id in UnionKeys(b, l, r) {
      assert id in Elements(ids) <==> id in ids;
    }
  }

  // ---- The merge ----

  predicate MetaConflicts(base: Vault, local: Vault, remote: Vault) {
    || Conflicts(base.name, local.name, remote.name)
    || Conflicts(base.generator, local.generator, remote.generator)
    || Conflicts(base.metaNodeOrder, local.metaNodeOrder, remote.metaNodeOrder)
    || Conflicts(base.metaOpaqueXml, local.metaOpaqueXml, remote.metaOpaqueXml)
    || Conflicts(base.rootOpaqueXml, local.rootOpaqueXml, remote.rootOpaqueXml)
    || CD.UnitsConflict(MetaSide(base), MetaSide(local), MetaSide(remote))
  }

  function MergedMeta(base: Vault, local: Vault, remote: Vault): Result<Vault, PatchError> {
    var preferLocal := local.settingsChanged.GetOr(0) > remote.settingsChanged.GetOr(0);
    var name := MergedStamped(Stamped(base.name, base.nameChanged), Stamped(local.name, local.nameChanged),
                              Stamped(remote.name, remote.nameChanged));
    var metaXml := Selected(base.metaOpaqueXml, local.metaOpaqueXml, remote.metaOpaqueXml, preferLocal);
    var nodes := Selected(base.metaNodeOrder, local.metaNodeOrder, remote.metaNodeOrder, preferLocal);
    var data := CD.MergedSide(MetaSide(base), MetaSide(local), MetaSide(remote), preferLocal, metaXml, nodes);
    var icons :- MergedIcons(base.customIcons, local.customIcons, remote.customIcons);
    if MetaConflicts(base, local, remote) then Failure(FidelityConflict(MetaObject, None, ModeledField))
    else
      Success(remote.(
        name := name.value, nameChanged := name.changedAt,
        generator := Selected(base.generator, local.generator, remote.generator, preferLocal),
        settingsChanged := MergedChangedAt(base.settingsChanged, local.settingsChanged, remote.settingsChanged),
        rootOpaqueXml := Selected(base.rootOpaqueXml, local.rootOpaqueXml, remote.rootOpaqueXml, preferLocal),
        metaCustomData := data.values, metaCustomDataBlocks := data.fidelity.blocks,
        metaNodeOrder := data.fidelity.nodeOrder, metaOpaqueXml := data.fidelity.opaqueXml,
        deletedObjects := MergedDeletions(base.deletedObjects, local.deletedObjects, remote.deletedObjects),
        customIcons := icons))
  }

  /** Meta merging fails exactly on clashing icons or on a field both sides changed differently. */
  lemma MergedMetaIsExact(base: Vault, local: Vault, remote: Vault)
    ensures MergedMeta(base, local, remote).Success? <==>
      && NoIconClash(IconsById(base.customIcons), IconsById(local.customIcons), IconsById(remote.customIcons))
      && !MetaConflicts(base, local, remote)
    ensures var m := MergedMeta(base, local, remote);
      m.Failure? ==> m.error.ConcurrentObjectAddition? || m.error.FidelityConflict?
  {
    hide CD.MergedSide, MergedStamped, MergedDeletions, MetaConflicts, NoIconClash, Selected;
    AllIconsAreExact(IconsById(base.customIcons), IconsById(local.customIcons), IconsById(remote.customIcons));
  }
}
