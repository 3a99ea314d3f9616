/** The contents the laws of the patch return: with at most one changed version, every field is that version's. */
module PatchContents {
  import opened Wrappers
  import opened IdOrder
  import opened TextOrder
  import opened Model
  import opened FieldMerge
  import opened AttributeKeys
  import opened Forest
  import opened Tree
  import opened Rebuild
  import opened EntryMerge
  import opened EntrySurvival
  import opened ThreeWayPatch
  import opened PatchTheorems
  import opened PatchFates
  import opened PatchLaws
  import opened Subtrees
  import GM = GroupMerge

  /** The same entry up to its clocks, its history and its fidelity. */
  ghost predicate SameEntryContents(a: Entry, b: Entry) {
    && a.title == b.title && a.username == b.username && a.password == b.password && a.tags == b.tags
    && Icon(a) == Icon(b) && a.attributes == b.attributes && a.attachments == b.attachments
    && a.totp == b.totp && a.passkey == b.passkey && a.customData == b.customData
  }

  /** The same group up to its clocks and its fidelity. */
  ghost predicate SameGroupContents(a: Group, b: Group) {
    a.title == b.title && a.iconId == b.iconId && a.customIconId == b.customIconId && a.customData == b.customData
  }

  /** The three versions hold one change at most, and `target` is the changed one. */
  ghost predicate Decides<T>(base: T, local: T, remote: T, target: T) {
    || (target == remote && (local == base || local == remote))
    || (target == local && remote == base)
  }

  lemma EditsFollow<T>(base: T, local: T, remote: T, target: T, merged: T, preferLocal: bool)
    requires Decides(base, local, remote, target) && EditKept(base, local, remote, merged, preferLocal)
    ensures merged == target
  {
  }

  lemma SameKeys<V>(a: map<Text, V>, b: map<Text, V>)
    requires forall key :: Get(a, key) == Get(b, key)
    ensures a == b
  {
    forall key ensures key in a <==> key in b {
      assert Get(a, key) == Get(b, key);
    }
    forall key | key in a ensures a[key] == b[key] {
      assert Get(a, key) == Get(b, key);
    }
  }

  /** Attributes agree when the plain keys and both credential units do. */
  lemma SameAttributes(a: Entry, b: Entry)
    requires TotpUnit(a) == TotpUnit(b) && PasskeyUnit(a) == PasskeyUnit(b)
    requires forall key :: !IsReserved(key) ==> Get(a.attributes, key) == Get(b.attributes, key)
    ensures a.attributes == b.attributes
  {
    forall key ensures Get(a.attributes, key) == Get(b.attributes, key) {
      if IsReserved(key) {
        if IsTotpKey(key) {
          assert Get(TotpUnit(a).attributes, key) == Get(TotpUnit(b).attributes, key);
        } else {
          assert Get(PasskeyUnit(a).attributes, key) == Get(PasskeyUnit(b).attributes, key);
        }
      }
    }
    SameKeys(a.attributes, b.attributes);
  }

  lemma MergedEntryFollows(base: Flat<Entry>, local: Flat<Entry>, remote: Flat<Entry>, target: Flat<Entry>)
    requires base.parent.Some? && local.parent.Some? && remote.parent.Some?
    requires Decides(base.value, local.value, remote.value, target.value)
    ensures SameEntryContents(MergedRecord(base, local, remote).record.value, target.value)
  {
    hide MergedRecord, HistoryKept, LosersRequired, PlaceKept, TotpUnit, PasskeyUnit, Decides, EditKept, WholeKept, Get, IsReserved,
         SameTotp, SamePasskey;
    NoLostEdit(base, local, remote);
    var b, l, r, t := base.value, local.value, remote.value, target.value;
    var m, p := MergedRecord(base, local, remote).record.value, l.modifiedAt > r.modifiedAt;
    FieldsDecide(b, l, r, t);
    EditsFollow(b.title, l.title, r.title, t.title, m.title, p);
    EditsFollow(b.username, l.username, r.username, t.username, m.username, p);
    EditsFollow(b.password, l.password, r.password, t.password, m.password, p);
    EditsFollow(b.tags, l.tags, r.tags, t.tags, m.tags, p);
    EditsFollow(Icon(b), Icon(l), Icon(r), Icon(t), Icon(m), p);
    CredentialsFollow(b, l, r, t, m, p);
    forall key | !IsReserved(key) ensures Get(m.attributes, key) == Get(t.attributes, key) {
      KeyDecides(b, l, r, t, key);
      EditsFollow(Get(b.attributes, key), Get(l.attributes, key), Get(r.attributes, key), Get(t.attributes, key),
                  Get(m.attributes, key), p);
    }
    SameAttributes(m, t);
    UnitsHoldProjections(m, t);
    forall key ensures Get(m.attachments, key) == Get(t.attachments, key) {
      KeyDecides(b, l, r, t, key);
      EditsFollow(Get(b.attachments, key), Get(l.attachments, key), Get(r.attachments, key), Get(t.attachments, key),
                  Get(m.attachments, key), p);
    }
    SameKeys(m.attachments, t.attachments);
    forall key ensures Get(m.customData, key) == Get(t.customData, key) {
      KeyDecides(b, l, r, t, key);
      EditsFollow(Get(b.customData, key), Get(l.customData, key), Get(r.customData, key), Get(t.customData, key),
                  Get(m.customData, key), p);
    }
    SameKeys(m.customData, t.customData);
  }

  lemma CredentialsFollow(b: Entry, l: Entry, r: Entry, t: Entry, m: Entry, preferLocal: bool)
    requires Decides(b, l, r, t) && AttributeEditsKept(b, l, r, m, preferLocal)
    ensures TotpUnit(m) == TotpUnit(t) && PasskeyUnit(m) == PasskeyUnit(t)
  {
    SameUnits(m, t);
  }

  lemma FieldsDecide(b: Entry, l: Entry, r: Entry, t: Entry)
    requires Decides(b, l, r, t)
    ensures Decides(b.title, l.title, r.title, t.title) && Decides(b.username, l.username, r.username, t.username)
    ensures Decides(b.password, l.password, r.password, t.password) && Decides(b.tags, l.tags, r.tags, t.tags)
    ensures Decides(Icon(b), Icon(l), Icon(r), Icon(t))
  {
  }

  lemma KeyDecides(b: Entry, l: Entry, r: Entry, t: Entry, key: Text)
    requires Decides(b, l, r, t)
    ensures Decides(Get(b.attributes, key), Get(l.attributes, key), Get(r.attributes, key), Get(t.attributes, key))
    ensures Decides(Get(b.attachments, key), Get(l.attachments, key), Get(r.attachments, key), Get(t.attachments, key))
    ensures Decides(Get(b.customData, key), Get(l.customData, key), Get(r.customData, key), Get(t.customData, key))
  {
  }

  lemma UnitsHoldProjections(a: Entry, b: Entry)
    requires TotpUnit(a) == TotpUnit(b) && PasskeyUnit(a) == PasskeyUnit(b)
    ensures a.totp == b.totp && a.passkey == b.passkey
  {
  }

  lemma MergedGroupFollows(b: Group, l: Group, r: Group, t: Group, m: Group)
    requires Decides(b, l, r, t) && GroupEditsKept(b, l, r, m)
    ensures SameGroupContents(m, t)
  {
    forall key ensures Get(m.customData, key) == Get(t.customData, key) {
      assert EditKept(Get(b.customData, key), Get(l.customData, key), Get(r.customData, key), Get(m.customData, key),
                      GM.ModifiedAt(l) > GM.ModifiedAt(r));
    }
    SameKeys(m.customData, t.customData);
  }

  // ---- The flattened versions ----

  /** What the versions of a decided patch hold of the target. */
  ghost predicate Follows(v: GM.Versions, t: FlatVault) {
    || (t == v.remote && (v.local == v.base || v.local == v.remote))
    || (t == v.local && v.remote == v.base)
  }

  /** Every entry of the target is returned with its contents and place. */
  lemma EntriesFollow(base: Vault, local: Vault, remote: Vault, result: PatchResult, side: Version, v: GM.Versions,
                      t: FlatVault, id: Uuid)
    requires Patch(base, local, remote) == Success(result) && Flattened(base, local, remote) == Success(v)
    requires Follows(v, t) && id in t.entries
    ensures FlattenVault(result.vault, side).Success?
    ensures var again := FlattenVault(result.vault, side).value;
      && id in again.entries && again.entries[id].parent == t.entries[id].parent
      && SameEntryContents(again.entries[id].value, t.entries[id].value)
  {
    hide Patch, Flattened, FlattenVault, MergedRecord, SameEntryContents, InPreserved, PreservedSubtrees, SameRecord;
    EntryFate(base, local, remote, result, side, id);
    SelfContents(t.entries[id].value);
    if id in v.base.entries && id in v.local.entries && id in v.remote.entries {
      MergedEntryFollows(v.base.entries[id], v.local.entries[id], v.remote.entries[id], t.entries[id]);
    }
  }

  lemma SelfContents(e: Entry)
    ensures SameEntryContents(e, e)
  {
  }

  /** Every group of the target is returned with its contents and place. */
  lemma GroupsFollow(base: Vault, local: Vault, remote: Vault, result: PatchResult, side: Version, v: GM.Versions,
                     t: FlatVault, id: Uuid)
    requires Patch(base, local, remote) == Success(result) && Flattened(base, local, remote) == Success(v)
    requires Follows(v, t) && id in t.groups
    ensures FlattenVault(result.vault, side).Success?
    ensures var again := FlattenVault(result.vault, side).value;
      && id in again.groups && (id != v.base.rootId ==> again.groups[id].parent == t.groups[id].parent)
      && SameGroupContents(again.groups[id].value, t.groups[id].value)
  {
    hide Patch, Flattened, FlattenVault, GroupEditsKept, SameGroupContents, SubtreeChanged, SameButSlots;
    GroupFate(base, local, remote, result, side, id);
    var again := FlattenVault(result.vault, side).value.groups[id];
    if id in v.base.groups && id in v.local.groups && id in v.remote.groups {
      MergedGroupFollows(v.base.groups[id].value, v.local.groups[id].value, v.remote.groups[id].value,
                         t.groups[id].value, again.value);
    } else {
      ShellContents(again.value, t.groups[id].value);
    }
  }

  lemma ShellContents(a: Group, b: Group)
    requires SameButSlots(Shell(a), Shell(b))
    ensures SameGroupContents(a, b)
  {
    assert Shell(a).title == a.title && Shell(b).title == b.title;
  }

  // ---- The laws, with contents ----

  /** Every group and entry of `t` is in the returned vault, in its place and with its contents. */
  ghost predicate HoldsContents(again: FlatVault, t: FlatVault) {
    && (forall id :: id in t.entries ==>
          && id in again.entries && again.entries[id].parent == t.entries[id].parent
          && SameEntryContents(again.entries[id].value, t.entries[id].value))
    && (forall id :: id in t.groups ==>
          && id in again.groups && (id != t.rootId ==> again.groups[id].parent == t.groups[id].parent)
          && SameGroupContents(again.groups[id].value, t.groups[id].value))
  }

  lemma AllFollow(base: Vault, local: Vault, remote: Vault, result: PatchResult, side: Version, v: GM.Versions,
                  t: FlatVault)
    requires Patch(base, local, remote) == Success(result) && Flattened(base, local, remote) == Success(v)
    requires Follows(v, t) && t.rootId == v.base.rootId
    ensures FlattenVault(result.vault, side).Success? && HoldsContents(FlattenVault(result.vault, side).value, t)
  {
    hide Patch, Flattened, FlattenVault, Follows, SameEntryContents, SameGroupContents;
    hide DistinctGroup;
    PatchHoldsSurvivors(base, local, remote, result, side);
    forall id | id in t.entries
      ensures var again := FlattenVault(result.vault, side).value;
        && id in again.entries && again.entries[id].parent == t.entries[id].parent
        && SameEntryContents(again.entries[id].value, t.entries[id].value)
    {
      EntriesFollow(base, local, remote, result, side, v, t, id);
    }
    forall id | id in t.groups
      ensures var again := FlattenVault(result.vault, side).value;
        && id in again.groups && (id != t.rootId ==> again.groups[id].parent == t.groups[id].parent)
        && SameGroupContents(again.groups[id].value, t.groups[id].value)
    {
      GroupsFollow(base, local, remote, result, side, v, t, id);
    }
  }

  /** Applying no change, or a change the remote already has, gives remote's groups and entries with their contents. */
  lemma RemoteContentsReturned(base: Vault, local: Vault, remote: Vault, side: Version)
    requires Patchable(base) && Patchable(local) && Patchable(remote) && base.root.id == local.root.id == remote.root.id
    requires local == base || local == remote
    ensures Patch(base, local, remote).Success? && FlattenVault(remote, BaseSide).Success?
    ensures var again := FlattenVault(Patch(base, local, remote).value.vault, side);
      again.Success? && HoldsContents(again.value, FlattenVault(remote, BaseSide).value)
  {
    hide Patchable, Patch, Flattened, FlattenVault, HoldsContents, EntriesPlaced, GM.OneLineage;
    RemoteDecidedPatch(base, local, remote);
    var v := VersionsOf(base, local, remote);
    FlattenRoot(remote, v.remote);
    AllFollow(base, local, remote, Patch(base, local, remote).value, side, v, v.remote);
  }

  lemma FlattenRoot(vault: Vault, flat: FlatVault)
    requires FlattenVault(vault, BaseSide) == Success(flat)
    ensures flat.rootId == vault.root.id
  {
    hide FlattenVault;
    FlattenIsExact(vault, BaseSide);
  }

  /** Applying a change to the unchanged remote gives local's groups and entries with their contents. */
  lemma LocalContentsReturned(base: Vault, local: Vault, side: Version)
    requires Patchable(base) && Patchable(local) && base.root.id == local.root.id
    requires Patch(base, local, base).Success?
    ensures FlattenVault(local, BaseSide).Success?
    ensures var again := FlattenVault(Patch(base, local, base).value.vault, side);
      again.Success? && HoldsContents(again.value, FlattenVault(local, BaseSide).value)
  {
    hide Patchable, Patch, Flattened, FlattenVault, HoldsContents, EntriesPlaced, GM.OneLineage;
    var v := VersionsOf(base, local, base);
    FlattenRoot(local, v.local);
    AllFollow(base, local, base, Patch(base, local, base).value, side, v, v.local);
  }
}
