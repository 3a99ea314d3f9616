/** The checks before the merge, and the merge of the vault's own fields, as the loops they are. */
module VaultLoops {
  import opened Wrappers
  import opened IdOrder
  import opened FidelitySlots
  import opened Model
  import opened FieldMerge
  import opened Forest
  import opened Tree
  import opened SiblingMerge
  import opened MetaMerge
  import opened RecordMerge
  import opened Siblings
  import CD = CustomData

  // ---- Checks ----

  /** The first identifier that was inserted before. */
  method FindRepeat(ids: seq<Uuid>) returns (repeat: Option<Uuid>)
    ensures repeat == FirstRepeat(ids, {})
  {
    var seen: set<Uuid> := {};
    for i := 0 to |ids|
      invariant FirstRepeat(ids[i..], seen) == FirstRepeat(ids, {})
    {
      assert ids[i..][0] == ids[i] && ids[i..][1..] == ids[i + 1..];
      if ids[i] in seen {
        return Some(ids[i]);
      }
      seen := seen + {ids[i]};
    }
    return None;
  }

  method CheckUniqueMetaIds(vault: Vault, side: Version) returns (outcome: Outcome<PatchError>)
    ensures outcome == EnsureUniqueMetaIds(vault, side)
  {
    var icon := FindRepeat(IconIds(vault.customIcons));
    if icon.Some? {
      return Fail(DuplicateCustomIcon(side, icon.value));
    }
    var deleted := FindRepeat(DeletedIds(vault.deletedObjects));
    if deleted.Some? {
      return Fail(DuplicateDeletedObject(side, deleted.value));
    }
    return Pass;
  }

  method CheckFidelity(base: Vault, local: Vault, remote: Vault, b: FlatVault, l: FlatVault, r: FlatVault)
    returns (outcome: Outcome<PatchError>)
    ensures outcome == EnsureFidelityRepresentable(base, local, remote, b, l, r)
  {
    hide MetaFidelity, EntryFidelity, GroupFidelity;
    outcome := MetaFidelity(base, local, remote);
    if outcome.Fail? {
      return;
    }
    var entries := Ascending(b.entries.Keys);
    for i := 0 to |entries|
      invariant AllEntryFidelity(b, l, r, entries[i..]) == AllEntryFidelity(b, l, r, entries)
    {
      assert entries[i..][0] == entries[i] && entries[i..][1..] == entries[i + 1..];
      outcome := EntryFidelity(b, l, r, entries[i]);
      if outcome.Fail? {
        return;
      }
    }
    var groups := Ascending(b.groups.Keys);
    for i := 0 to |groups|
      invariant AllGroupFidelity(b, l, r, groups[i..]) == AllGroupFidelity(b, l, r, groups)
    {
      assert groups[i..][0] == groups[i] && groups[i..][1..] == groups[i + 1..];
      outcome := GroupFidelity(b, l, r, groups[i]);
      if outcome.Fail? {
        return;
      }
    }
    return Pass;
  }

  method CheckSiblingOrder(base: FlatVault, local: FlatVault, remote: FlatVault) returns (outcome: Outcome<PatchError>)
    ensures outcome == EnsureLocalSiblingOrder(base, local, remote)
  {
    hide EntriesReordered, GroupsReordered;
    var parents := Ascending(base.groups.Keys);
    for i := 0 to |parents|
      invariant EnsureOrders(parents[i..], base, local, remote) == EnsureOrders(parents, base, local, remote)
    {
      assert parents[i..][0] == parents[i] && parents[i..][1..] == parents[i + 1..];
      if EntriesReordered(base, local, remote, parents[i]) {
        return Fail(SiblingOrderChange(parents[i], EntryObject));
      }
      if GroupsReordered(base, local, remote, parents[i]) {
        return Fail(SiblingOrderChange(parents[i], GroupObject));
      }
    }
    return Pass;
  }

  // ---- Tombstones and icons ----

  lemma DeletionStep(b: map<Uuid, DeletedObject>, l: map<Uuid, DeletedObject>, r: map<Uuid, DeletedObject>,
                     ids: seq<Uuid>, i: nat, merged: seq<DeletedObject>)
    requires i < |ids|
    ensures var d := SelectedDeletion(b, l, r, ids[i]);
      merged + DeletionsOf(b, l, r, ids[i..])
        == (merged + if d.Some? then [d.value] else []) + DeletionsOf(b, l, r, ids[i + 1..])
  {
    hide SelectedDeletion;
    assert ids[i..][0] == ids[i] && ids[i..][1..] == ids[i + 1..];
  }

  method MergeDeletions(base: seq<DeletedObject>, local: seq<DeletedObject>, remote: seq<DeletedObject>)
    returns (merged: seq<DeletedObject>)
    ensures merged == MergedDeletions(base, local, remote)
  {
    hide Selected, DeletionTime, Get;
    var b, l, r := DeletedById(base), DeletedById(local), DeletedById(remote);
    var ids := Ascending(UnionKeys(b, l, r));
    var flag := new ConflictFlag();
    merged := [];
    assert ids[0..] == ids && [] + DeletionsOf(b, l, r, ids) == DeletionsOf(b, l, r, ids);
    for i := 0 to |ids|
      invariant merged + DeletionsOf(b, l, r, ids[i..]) == DeletionsOf(b, l, r, ids)
    {
      DeletionStep(b, l, r, ids, i, merged);
      var selected := flag.MergeValue(Get(b, ids[i]), Get(l, ids[i]), Get(r, ids[i]),
                                      DeletionTime(Get(l, ids[i])) > DeletionTime(Get(r, ids[i])));
      merged := merged + if selected.Some? then [selected.value] else [];
    }
    assert merged + [] == merged;
  }

  /** What is still to be merged, put behind what is merged already. */
  function Behind(merged: seq<CustomIcon>, rest: Result<seq<CustomIcon>, PatchError>): Result<seq<CustomIcon>, PatchError> {
    match rest
    case Success(icons) => Success(merged + icons)
    case Failure(e) => Failure(e)
  }

  lemma IconStep(b: map<Uuid, CustomIcon>, l: map<Uuid, CustomIcon>, r: map<Uuid, CustomIcon>, ids: seq<Uuid>, i: nat,
                 merged: seq<CustomIcon>)
    requires i < |ids|
    ensures Behind(merged, IconsOf(b, l, r, ids[i..])) ==
      match SelectedIcon(Get(b, ids[i]), Get(l, ids[i]), Get(r, ids[i]), ids[i])
      case Failure(e) => Failure(e)
      case Success(None) => Behind(merged, IconsOf(b, l, r, ids[i + 1..]))
      case Success(Some(icon)) =>
        Behind(merged + [StampedIcon(icon, Get(b, ids[i]), Get(l, ids[i]), Get(r, ids[i]))], IconsOf(b, l, r, ids[i + 1..]))
  {
    hide SelectedIcon, StampedIcon, Get;
    assert ids[i..][0] == ids[i] && ids[i..][1..] == ids[i + 1..];
    var rest := IconsOf(b, l, r, ids[i + 1..]);
    var selected := SelectedIcon(Get(b, ids[i]), Get(l, ids[i]), Get(r, ids[i]), ids[i]);
    if rest.Success? && selected.Success? {
      if selected.value.Some? {
        var icon := StampedIcon(selected.value.value, Get(b, ids[i]), Get(l, ids[i]), Get(r, ids[i]));
        assert merged + ([icon] + rest.value) == (merged + [icon]) + rest.value;
      } else {
        assert [] + rest.value == rest.value;
      }
    }
  }

  method MergeIcons(base: seq<CustomIcon>, local: seq<CustomIcon>, remote: seq<CustomIcon>)
    returns (result: Result<seq<CustomIcon>, PatchError>)
    ensures result == MergedIcons(base, local, remote)
  {
    hide SelectedIcon, StampedIcon, Get;
    var b, l, r := IconsById(base), IconsById(local), IconsById(remote);
    var ids := Ascending(UnionKeys(b, l, r));
    ghost var whole := IconsOf(b, l, r, ids);
    var merged: seq<CustomIcon> := [];
    assert ids[0..] == ids && Behind([], whole) == whole by {
      if whole.Success? {
        assert [] + whole.value == whole.value;
      }
    }
    for i := 0 to |ids|
      invariant Behind(merged, IconsOf(b, l, r, ids[i..])) == whole
    {
      IconStep(b, l, r, ids, i, merged);
      var selected := SelectedIcon(Get(b, ids[i]), Get(l, ids[i]), Get(r, ids[i]), ids[i]);
      if selected.Failure? {
        return Failure(selected.error);
      }
      if selected.value.Some? {
        merged := merged + [StampedIcon(selected.value.value, Get(b, ids[i]), Get(l, ids[i]), Get(r, ids[i]))];
      }
    }
    assert merged + [] == merged;
    return Success(merged);
  }

  // ---- The vault's own fields ----

  /** A value with its own clock: the value is merged like any other, then the time is read off the sides that hold it. */
  method MergeStamped<T(==)>(flag: ConflictFlag, base: Stamped<T>, local: Stamped<T>, remote: Stamped<T>)
    returns (merged: Stamped<T>)
    modifies flag
    ensures merged == MergedStamped(base, local, remote)
    ensures flag.conflict == (old(flag.conflict) || Conflicts(base.value, local.value, remote.value))
  {
    var value := flag.MergeValue(base.value, local.value, remote.value, LaterChange(local.changedAt, remote.changedAt));
    var changedAt := remote.changedAt;
    if local.value == value && remote.value == value {
      changedAt := if base.value == value then MergedChangedAt(base.changedAt, local.changedAt, remote.changedAt)
                   else LaterOption(local.changedAt, remote.changedAt);
    } else if local.value == value {
      changedAt := local.changedAt;
    }
    return Stamped(value, changedAt);
  }

  method MergeMeta(base: Vault, local: Vault, remote: Vault) returns (result: Result<Vault, PatchError>)
    ensures result == MergedMeta(base, local, remote)
  {
    hide Selected, Conflicts, CD.UnitsConflict, CD.MergedSide, MergedStamped, MergedDeletions, MergedIcons,
         MergedChangedAt;
    var flag := new ConflictFlag();
    var preferLocal := local.settingsChanged.GetOr(0) > remote.settingsChanged.GetOr(0);
    var name := MergeStamped(flag, Stamped(base.name, base.nameChanged), Stamped(local.name, local.nameChanged),
                             Stamped(remote.name, remote.nameChanged));
    var generator := flag.MergeValue(base.generator, local.generator, remote.generator, preferLocal);
    var nodes := flag.MergeValue(base.metaNodeOrder, local.metaNodeOrder, remote.metaNodeOrder, preferLocal);
    var metaXml := flag.MergeValue(base.metaOpaqueXml, local.metaOpaqueXml, remote.metaOpaqueXml, preferLocal);
    var rootXml := flag.MergeValue(base.rootOpaqueXml, local.rootOpaqueXml, remote.rootOpaqueXml, preferLocal);
    var data := MergeCustomDataFields(flag, MetaSide(base), MetaSide(local), MetaSide(remote), preferLocal, metaXml, nodes);
    var deletions := MergeDeletions(base.deletedObjects, local.deletedObjects, remote.deletedObjects);
    var icons := MergeIcons(base.customIcons, local.customIcons, remote.customIcons);
    if icons.Failure? {
      return Failure(icons.error);
    }
    if flag.conflict {
      return Failure(FidelityConflict(MetaObject, None, ModeledField));
    }
    return Success(remote.(
      name := name.value, nameChanged := name.changedAt, generator := generator,
      settingsChanged := MergedChangedAt(base.settingsChanged, local.settingsChanged, remote.settingsChanged),
      rootOpaqueXml := rootXml, metaCustomData := data.values, metaCustomDataBlocks := data.fidelity.blocks,
      metaNodeOrder := data.fidelity.nodeOrder, metaOpaqueXml := data.fidelity.opaqueXml,
      deletedObjects := deletions, customIcons := icons.value));
  }
}
