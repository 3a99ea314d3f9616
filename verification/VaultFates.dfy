/** What a successful patch makes of the vault's own fields, tombstones and icons. */
module VaultFates {
  import opened Wrappers
  import opened IdOrder
  import opened Model
  import opened TextOrder
  import opened FieldMerge
  import opened Forest
  import opened Tree
  import opened Rebuild
  import opened RebuildInverse
  import opened EntryMerge
  import opened EntrySurvival
  import opened MetaMerge
  import opened Tombstones
  import opened Icons
  import opened FidelitySlots
  import opened CustomDataFates
  import opened DataFidelity
  import opened PatchRecords
  import opened ThreeWayPatch
  import opened PatchTheorems
  import GM = GroupMerge
  import CD = CustomData

  // ---- Times ----

  /** The later of two times, where no time is earlier than any. */
  ghost predicate IsLater(a: Option<int>, b: Option<int>, m: Option<int>) {
    && (a.None? ==> m == b) && (b.None? ==> m == a)
    && (a.Some? && b.Some? ==> m.Some? && m.value >= a.value && m.value >= b.value && (m == a || m == b))
  }

  /** A time changed on one side is taken from there; changed on both, the later one stands. */
  ghost predicate TimeKept(base: Option<int>, local: Option<int>, remote: Option<int>, merged: Option<int>) {
    && (local == base ==> merged == remote)
    && (remote == base ==> merged == local)
    && (local != base && remote != base ==> IsLater(local, remote, merged))
  }

  /** The time of a value comes from the sides that hold the merged value. */
  ghost predicate StampKept<T>(base: Stamped<T>, local: Stamped<T>, remote: Stamped<T>, merged: Stamped<T>) {
    && (local.value == merged.value && remote.value != merged.value ==> merged.changedAt == local.changedAt)
    && (remote.value == merged.value && local.value != merged.value ==> merged.changedAt == remote.changedAt)
    && (local.value == merged.value && remote.value == merged.value ==>
          if base.value == merged.value then TimeKept(base.changedAt, local.changedAt, remote.changedAt, merged.changedAt)
          else IsLater(local.changedAt, remote.changedAt, merged.changedAt))
  }

  lemma StampedIsKept<T>(base: Stamped<T>, local: Stamped<T>, remote: Stamped<T>)
    requires !Contested(base.value, local.value, remote.value)
    ensures var merged := MergedStamped(base, local, remote);
      EditKept(base.value, local.value, remote.value, merged.value, false) && StampKept(base, local, remote, merged)
  {
  }

  // ---- The vault's own fields ----

  /** Some field of the vault was changed on both sides in different ways. */
  ghost predicate VaultContested(base: Vault, local: Vault, remote: Vault) {
    || Contested(base.name, local.name, remote.name)
    || Contested(base.generator, local.generator, remote.generator)
    || Contested(base.metaNodeOrder, local.metaNodeOrder, remote.metaNodeOrder)
    || Contested(base.metaOpaqueXml, local.metaOpaqueXml, remote.metaOpaqueXml)
    || Contested(base.rootOpaqueXml, local.rootOpaqueXml, remote.rootOpaqueXml)
    || SomeKeyContested(base.metaCustomData, local.metaCustomData, remote.metaCustomData)
    || SomeIconContested(base.customIcons, local.customIcons, remote.customIcons)
  }

  ghost predicate SomeKeyContested<V>(base: map<Text, V>, local: map<Text, V>, remote: map<Text, V>) {
    exists key :: Contested(Get(base, key), Get(local, key), Get(remote, key))
  }

  /** Every one-sided change of the vault's own fields is in the merged vault; nothing contested is merged. */
  ghost predicate VaultEditsKept(base: Vault, local: Vault, remote: Vault, merged: Vault) {
    && EditKept(base.name, local.name, remote.name, merged.name, false)
    && StampKept(Stamped(base.name, base.nameChanged), Stamped(local.name, local.nameChanged),
                 Stamped(remote.name, remote.nameChanged), Stamped(merged.name, merged.nameChanged))
    && EditKept(base.generator, local.generator, remote.generator, merged.generator, false)
    && TimeKept(base.settingsChanged, local.settingsChanged, remote.settingsChanged, merged.settingsChanged)
    && EditKept(base.rootOpaqueXml, local.rootOpaqueXml, remote.rootOpaqueXml, merged.rootOpaqueXml, false)
    && (forall key :: EditKept(Get(base.metaCustomData, key), Get(local.metaCustomData, key),
                               Get(remote.metaCustomData, key), Get(merged.metaCustomData, key), false))
    && AscendingIcons(merged.customIcons)
    && (forall id :: IconKept(IconOf(base.customIcons, id), IconOf(local.customIcons, id),
                              IconOf(remote.customIcons, id), IconOf(merged.customIcons, id)))
  }

  lemma MetaConflictsExactly(base: Vault, local: Vault, remote: Vault)
    ensures MetaConflicts(base, local, remote) || MergedIcons(base.customIcons, local.customIcons, remote.customIcons).Failure?
       <==> VaultContested(base, local, remote)
  {
    CustomDataContested(MetaSide(base), MetaSide(local), MetaSide(remote));
    MergedIconsFail(base.customIcons, local.customIcons, remote.customIcons);
    assert CD.UnitsConflict(MetaSide(base), MetaSide(local), MetaSide(remote))
      <==> SomeKeyContested(base.metaCustomData, local.metaCustomData, remote.metaCustomData);
    hide CD.UnitsConflict, MergedIcons, SomeKeyContested, SomeIconContested;
  }

  /** Vault fields merge exactly when nothing is contested, and then keep every edit. */
  lemma MergedVault(base: Vault, local: Vault, remote: Vault)
    ensures MergedMeta(base, local, remote).Success? <==> !VaultContested(base, local, remote)
    ensures MergedMeta(base, local, remote).Success? ==>
      VaultEditsKept(base, local, remote, MergedMeta(base, local, remote).value)
  {
    MetaConflictsExactly(base, local, remote);
    if MergedMeta(base, local, remote).Success? {
      MergedIconsKept(base.customIcons, local.customIcons, remote.customIcons);
      MergedFields(base, local, remote);
    }
    hide VaultContested, MergedStamped, CD.MergedSide, MergedDeletions, MergedIcons, MetaConflicts, IconKept, StampKept,
         TimeKept, Selected;
  }

  lemma MergedFields(base: Vault, local: Vault, remote: Vault)
    requires MergedMeta(base, local, remote).Success?
    ensures var merged := MergedMeta(base, local, remote).value;
      && EditKept(base.name, local.name, remote.name, merged.name, false)
      && StampKept(Stamped(base.name, base.nameChanged), Stamped(local.name, local.nameChanged),
                   Stamped(remote.name, remote.nameChanged), Stamped(merged.name, merged.nameChanged))
      && EditKept(base.generator, local.generator, remote.generator, merged.generator, false)
      && TimeKept(base.settingsChanged, local.settingsChanged, remote.settingsChanged, merged.settingsChanged)
      && EditKept(base.rootOpaqueXml, local.rootOpaqueXml, remote.rootOpaqueXml, merged.rootOpaqueXml, false)
      && (forall key :: EditKept(Get(base.metaCustomData, key), Get(local.metaCustomData, key),
                                 Get(remote.metaCustomData, key), Get(merged.metaCustomData, key), false))
      && merged.customIcons == MergedIcons(base.customIcons, local.customIcons, remote.customIcons).value
  {
    MetaConflictsExactly(base, local, remote);
    StampedIsKept(Stamped(base.name, base.nameChanged), Stamped(local.name, local.nameChanged),
                  Stamped(remote.name, remote.nameChanged));
    var preferLocal := local.settingsChanged.GetOr(0) > remote.settingsChanged.GetOr(0);
    hide CD.MergedUnits, CD.Units, CD.FidelityOnly, CD.Reconciled, CD.WithStamps, CD.UnitValues, MergedStamped, StampKept,
         MergedDeletions, MergedIcons, MetaConflicts;
    forall key
      ensures EditKept(Get(base.metaCustomData, key), Get(local.metaCustomData, key), Get(remote.metaCustomData, key),
                       Get(MergedMeta(base, local, remote).value.metaCustomData, key), false)
    {
      CustomDataEdit(MetaSide(base), MetaSide(local), MetaSide(remote), preferLocal, key);
      assert !Contested(Get(base.metaCustomData, key), Get(local.metaCustomData, key), Get(remote.metaCustomData, key));
    }
  }

  // ---- Fidelity that can be joined ----

  /** Opaque content contested by nobody, and custom-data blocks that local's can be joined with. */
  ghost predicate FidelityJoins(base: seq<OpaqueXmlFragment>, local: seq<OpaqueXmlFragment>,
                                remote: seq<OpaqueXmlFragment>, b: CD.Side, l: CD.Side, remoteBlocks: seq<CD.Block>) {
    !Contested(base, local, remote) && Joinable(b, l, remoteBlocks)
  }

  ghost predicate EntryJoins(b: Entry, l: Entry, r: Entry) {
    FidelityJoins(b.opaqueXml, l.opaqueXml, r.opaqueXml, CD.Side(b.customData, b.customDataBlocks),
                  CD.Side(l.customData, l.customDataBlocks), r.customDataBlocks)
  }

  ghost predicate GroupJoins(b: Group, l: Group, r: Group) {
    FidelityJoins(b.opaqueXml, l.opaqueXml, r.opaqueXml, CD.Side(b.customData, b.customDataBlocks),
                  CD.Side(l.customData, l.customDataBlocks), r.customDataBlocks)
  }

  /** The fidelity of the vault, and of every entry and group all versions hold, can be joined. */
  ghost predicate AllFidelityJoins(base: Vault, local: Vault, remote: Vault, v: GM.Versions) {
    && FidelityJoins(base.metaOpaqueXml, local.metaOpaqueXml, remote.metaOpaqueXml,
                     CD.Side(base.metaCustomData, base.metaCustomDataBlocks),
                     CD.Side(local.metaCustomData, local.metaCustomDataBlocks), remote.metaCustomDataBlocks)
    && !Contested(base.rootOpaqueXml, local.rootOpaqueXml, remote.rootOpaqueXml)
    && (forall id :: id in v.base.entries && id in v.local.entries && id in v.remote.entries ==>
          EntryJoins(v.base.entries[id].value, v.local.entries[id].value, v.remote.entries[id].value))
    && (forall id :: id in v.base.groups && id in v.local.groups && id in v.remote.groups ==>
          GroupJoins(v.base.groups[id].value, v.local.groups[id].value, v.remote.groups[id].value))
  }

  lemma JoinsExactly(base: seq<OpaqueXmlFragment>, local: seq<OpaqueXmlFragment>, remote: seq<OpaqueXmlFragment>,
                     b: CD.Side, l: CD.Side, remoteBlocks: seq<CD.Block>)
    ensures RecordMerges(base, local, remote, b, l, remoteBlocks) <==> FidelityJoins(base, local, remote, b, l, remoteBlocks)
  {
    JoinableExactly(b, l, remoteBlocks);
    hide CD.RebaseRepresentable, Joinable;
  }

  /** The fidelity check passes exactly then. */
  lemma FidelityJoinsExactly(base: Vault, local: Vault, remote: Vault, v: GM.Versions)
    ensures EnsureFidelityRepresentable(base, local, remote, v.base, v.local, v.remote).Pass?
       <==> AllFidelityJoins(base, local, remote, v)
  {
    RepresentableIsExact(base, local, remote, v.base, v.local, v.remote);
    hide EnsureFidelityRepresentable, RecordMerges, FidelityJoins;
    JoinsExactly(base.metaOpaqueXml, local.metaOpaqueXml, remote.metaOpaqueXml, MetaSide(base), MetaSide(local),
                 remote.metaCustomDataBlocks);
    forall b: Entry, l: Entry, r: Entry
      ensures RecordMerges(b.opaqueXml, l.opaqueXml, r.opaqueXml, CD.Side(b.customData, b.customDataBlocks),
                           CD.Side(l.customData, l.customDataBlocks), r.customDataBlocks)
         <==> EntryJoins(b, l, r)
    {
      JoinsExactly(b.opaqueXml, l.opaqueXml, r.opaqueXml, CD.Side(b.customData, b.customDataBlocks),
                   CD.Side(l.customData, l.customDataBlocks), r.customDataBlocks);
    }
    forall b: Group, l: Group, r: Group
      ensures RecordMerges(b.opaqueXml, l.opaqueXml, r.opaqueXml, CD.Side(b.customData, b.customDataBlocks),
                           CD.Side(l.customData, l.customDataBlocks), r.customDataBlocks)
         <==> GroupJoins(b, l, r)
    {
      JoinsExactly(b.opaqueXml, l.opaqueXml, r.opaqueXml, CD.Side(b.customData, b.customDataBlocks),
                   CD.Side(l.customData, l.customDataBlocks), r.customDataBlocks);
    }
  }

  // ---- The returned vault ----

  /** The tombstones of what is dead are merged, and nothing alive has one. */
  ghost predicate TombstonesKept(base: seq<DeletedObject>, local: seq<DeletedObject>, remote: seq<DeletedObject>,
                                 merged: seq<DeletedObject>, live: set<Uuid>) {
    && AscendingTombstones(merged)
    && forall id :: if id in live then TombstoneOf(merged, id) == None else TombstoneKept(base, local, remote, merged, id)
  }

  lemma BuriedIsKept(base: seq<DeletedObject>, local: seq<DeletedObject>, remote: seq<DeletedObject>, live: set<Uuid>)
    ensures TombstonesKept(base, local, remote, Buried(MergedDeletions(base, local, remote), live), live)
  {
    var merged := MergedDeletions(base, local, remote);
    MergedTombstones(base, local, remote);
    BuriedTombstones(merged, live);
    hide MergedDeletions, Buried, EditKept, TombstoneOf;
    forall id | id !in live ensures TombstoneKept(base, local, remote, Buried(merged, live), id) {
      assert TombstoneKept(base, local, remote, merged, id);
      assert TombstoneOf(Buried(merged, live), id) == TombstoneOf(merged, id);
    }
  }

  /**
    The returned vault holds every one-sided edit of the vault's fields and
    icons, and exactly the tombstones of what is not in its tree.
   */
  lemma VaultFate(base: Vault, local: Vault, remote: Vault, result: PatchResult, side: Version)
    requires Patch(base, local, remote) == Success(result)
    ensures FlattenVault(result.vault, side).Success?
    ensures var again := FlattenVault(result.vault, side).value;
      && VaultEditsKept(base, local, remote, result.vault)
      && VaultDataKept(base, local, remote, result.vault)
      && TombstonesKept(base.deletedObjects, local.deletedObjects, remote.deletedObjects, result.vault.deletedObjects,
                        again.groups.Keys + again.entries.Keys)
  {
    hide Flattened, Patched, RebuildTree, MergedMeta, GM.OneLineage, WellFormed, FromSurvivors, Patch, VaultEditsKept, VaultDataKept,
         FlattenVault, Rebuilt, EntriesPlaced, TombstonesKept, SameRecords, MergedDeletions, Buried, VaultContested;
    var v, p := PatchStages(base, local, remote, result);
    FlattenedIsOneLineage(base, local, remote);
    PatchedIsWellFormed(v, p);
    RebuildPlacesAll(FlatOf(v, p));
    FlattenOfRebuild(FlatOf(v, p), result.vault, side);
    MergedVault(base, local, remote);
    MergedVaultData(base, local, remote);
    DeletionsMerged(base, local, remote);
    BuriedIsKept(base.deletedObjects, local.deletedObjects, remote.deletedObjects, p.groups.Keys + p.entries.Keys);
    RootAside(base, local, remote, MergedMeta(base, local, remote).value, result.vault);
    DataAside(base, local, remote, MergedMeta(base, local, remote).value, result.vault);
  }

  lemma DataAside(base: Vault, local: Vault, remote: Vault, merged: Vault, again: Vault)
    requires VaultDataKept(base, local, remote, merged)
    requires again == merged.(root := again.root, deletedObjects := again.deletedObjects)
    ensures VaultDataKept(base, local, remote, again)
  {
    hide EditKept, DataMerged;
  }

  /** The vault's own custom data, opaque content and node order, as for every record; there are no slots to drop. */
  ghost predicate VaultDataKept(base: Vault, local: Vault, remote: Vault, merged: Vault) {
    exists xml: seq<OpaqueXmlFragment>, nodes: seq<Text> ::
      && EditKept(base.metaOpaqueXml, local.metaOpaqueXml, remote.metaOpaqueXml, xml, false)
      && EditKept(base.metaNodeOrder, local.metaNodeOrder, remote.metaNodeOrder, nodes, false)
      && DataMerged(CD.Side(base.metaCustomData, base.metaCustomDataBlocks), CD.Side(local.metaCustomData, local.metaCustomDataBlocks),
                    CD.Side(remote.metaCustomData, remote.metaCustomDataBlocks), merged.metaCustomData, merged.metaCustomDataBlocks,
                    xml, merged.metaOpaqueXml, nodes, merged.metaNodeOrder)
  }

  lemma MergedVaultData(base: Vault, local: Vault, remote: Vault)
    requires MergedMeta(base, local, remote).Success? && !VaultContested(base, local, remote)
    ensures VaultDataKept(base, local, remote, MergedMeta(base, local, remote).value)
  {
    var preferLocal := local.settingsChanged.GetOr(0) > remote.settingsChanged.GetOr(0);
    var xml := Selected(base.metaOpaqueXml, local.metaOpaqueXml, remote.metaOpaqueXml, preferLocal);
    var nodes := Selected(base.metaNodeOrder, local.metaNodeOrder, remote.metaNodeOrder, preferLocal);
    UncontestedKept(base.metaOpaqueXml, local.metaOpaqueXml, remote.metaOpaqueXml, preferLocal);
    UncontestedKept(base.metaNodeOrder, local.metaNodeOrder, remote.metaNodeOrder, preferLocal);
    hide CD.MergedSide, DataMerged, EditKept, Selected, MergedIcons, MergedStamped, MergedDeletions, MetaConflicts;
    DataMergedExactly(MetaSide(base), MetaSide(local), MetaSide(remote), preferLocal, xml, nodes);
  }

  /** Where nothing is contested, the preference does not matter. */
  lemma UncontestedKept<T>(base: T, local: T, remote: T, preferLocal: bool)
    requires !Contested(base, local, remote)
    ensures EditKept(base, local, remote, Selected(base, local, remote, preferLocal), false)
  {
  }

  /** The tree and the tombstones are no field of the vault's own. */
  lemma RootAside(base: Vault, local: Vault, remote: Vault, merged: Vault, again: Vault)
    requires VaultEditsKept(base, local, remote, merged)
    requires again == merged.(root := again.root, deletedObjects := again.deletedObjects)
    ensures VaultEditsKept(base, local, remote, again)
  {
    hide EditKept, StampKept, TimeKept, IconKept, AscendingIcons;
  }

  /** Applied to the unchanged remote, local's tombstones come back, except those of what is alive. */
  lemma LocalTombstones(base: Vault, local: Vault, result: PatchResult, side: Version)
    requires Patch(base, local, base) == Success(result)
    ensures FlattenVault(result.vault, side).Success?
    ensures var again := FlattenVault(result.vault, side).value;
      forall d :: d in result.vault.deletedObjects <==>
        d in local.deletedObjects && d.id !in again.groups && d.id !in again.entries
  {
    hide Patch, FlattenVault, VaultEditsKept, TombstoneOf, UniqueTombstones;
    VaultFate(base, local, base, result, side);
    LocalIsUnique(base, local, base, result);
    var live := FlattenVault(result.vault, side).value.groups.Keys + FlattenVault(result.vault, side).value.entries.Keys;
    forall d ensures d in result.vault.deletedObjects <==> d in local.deletedObjects && d.id !in live {
      AscendingAreUnique(result.vault.deletedObjects);
      UniqueFound(result.vault.deletedObjects, d);
      UniqueFound(local.deletedObjects, d);
      assert d.id !in live ==>
        TombstoneKept(base.deletedObjects, local.deletedObjects, base.deletedObjects, result.vault.deletedObjects, d.id);
    }
  }

  ghost predicate UniqueTombstones(list: seq<DeletedObject>) {
    forall i, j :: 0 <= i < j < |list| ==> list[i].id != list[j].id
  }

  lemma AscendingAreUnique(list: seq<DeletedObject>)
    requires AscendingTombstones(list)
    ensures UniqueTombstones(list)
  {
  }

  lemma {:induction false} UniqueFound(list: seq<DeletedObject>, d: DeletedObject)
    requires UniqueTombstones(list)
    ensures d in list <==> TombstoneOf(list, d.id) == Some(d)
  {
    if list != [] {
      UniqueFound(list[..|list| - 1], d);
      assert list == list[..|list| - 1] + [list[|list| - 1]];
      TombstoneFound(list[..|list| - 1], d.id);
    }
  }

  lemma LocalIsUnique(base: Vault, local: Vault, remote: Vault, result: PatchResult)
    requires Patch(base, local, remote) == Success(result)
    ensures UniqueTombstones(local.deletedObjects)
  {
    hide Flattened, Patched, RebuildTree, MergedMeta, EnsureFidelityRepresentable, EntriesPlaced;
    UniqueMetaIdsIsExact(local, LocalSide);
    var ids := DeletedIds(local.deletedObjects);
    assert forall i :: 0 <= i < |ids| ==> ids[i] == local.deletedObjects[i].id;
  }
}
