# Vault verification

VaultKern keeps a password vault as a tree of groups and entries, rebases one
device's edits onto a remote head by a three-way patch, decides whether an entry
changed by comparing canonical bytes, and talks to its runtime through a native
message queue, a re-entrancy gate and a passkey ceremony. This project models
those parts in Dafny and proves what they guarantee for all inputs, all runs or
all interleavings.

## How it is organised

**Three-way patch.** `Model`, `Tree`, `Forest`, `Siblings` and `Rebuild` hold
the data, flattening, parent links and rebuilding; `RebuildInverse` shows that
rebuilding and flattening undo each other. `Subtrees`, `GroupMerge`,
`GroupHierarchy`, `EntryMerge`, `EntrySurvival`, `RecordMerge`, `FieldMerge` and
`MetaMerge` merge groups, entries and vault fields; `SiblingOrder` and
`SiblingMerge` rebase sibling lists. `TreeInPlace`, `SubtreeWalks`,
`RecordLoops` and `VaultLoops` are the code's loops over trees, subtrees,
records and vault fields. `PatchRecords` and `ThreeWayPatch` put the stages
together in the order of the code. `Clashes`, `SiblingPairs`, `Tombstones`,
`Icons`, `CustomDataFates`, `CustomDataBlocks`, `DataFidelity` and `RecordSlots`
say what each operation does in terms of the fields of the three versions, so
that the end-to-end results need not name the operations. These are in
`PatchTheorems` (errors, survivors, tombstones), `PatchSuccess` and `PatchOrders`
(exactly when the whole patch succeeds, reports a cycle, or is refused for
sibling orders), `FlattenReports` and `ReportedErrors` (which error a failing
patch reports), `PatchFates`, `SiblingFates`, `VaultFates`, `GroupSlots` and
`FidelityFates` (what becomes of each single group, entry, sibling list, vault
field, slot and piece of opaque content), `PatchLaws` (the shape patching gives
when one side did nothing, with `RecordLaws` beneath it) and `PatchContents` (the
contents it then gives). `CycleExample` shows that the one structural error that
remains possible does occur.

**Codecs and invariants.** `FidelitySlots`, `Normalize`, `CustomData` and
`CustomDataInPlace` cover known-node slots, anchors and custom-data blocks;
`PercentCoding`, `Otpauth`, `OtpauthRoundTrip` and `OtpauthLabels` the otpauth
text form, which `PercentReading` and `OtpauthReading` describe character by
character; `AttributeKeys`, `Attributes` and `AttributesInPlace` the materialised
attributes, which `AttributeReading` describes name by name; `CanonicalForm`,
`CanonicalInjective`, `CanonicalChecks`, `CanonicalEncoder` and
`CanonicalProjection` the canonical bytes, which `CanonicalLayout` describes byte
by byte.

**Protocols.** `CeremonySearch`, `CeremonyReplay` and `CeremonyTable` cover the
ceremony's transition searches; `NativeQueue`, `NativeTraffic`, `NativeAnswers`
and `NativeBridge` the native message queue, what each event does to it, and
where every answer came from; `CallGate` the session gate with its condition
variable. The
create flow is in two parts. `NativeCeremony` is the native runtime's record of
a ceremony, and `CreateLedger` the events of one request with the rules for each
party: the first handler, handlers that resume after a prompt, and recovery.
`CreateFlow` holds the handlers themselves, where at every await all other
parties do whatever those rules allow, and proves that each keeps the rules and
follows the script `CreateDeeds` has for it; so every interleaving is a safe
trace. `CreateSafety` and `CreateAnswers` prove
what safe traces guarantee, and `CreateRuns` shows runs where the guarantees
end. The queue, the gate and the handlers are classes with the state the code
has and one method per step that runs without interruption; awaits, failures and
schedules are nondeterministic.

Code that updates state in place is a method with loops, equated with a function
whose properties are then proved. `Wrappers`, `IdOrder` and `TextOrder` hold
options, results and the two orders.

## How the code is read

- Identifiers are natural numbers: only equality and the total order of UUIDs are
  used.
- Text is a sequence of bytes; UTF-8 validity is a predicate on it.
- A `BTreeMap` is a map visited in ascending key order; other visiting orders are
  arbitrary.
- Widths are explicit where they matter: 2^32 for lengths and counts, and the
  limits of the decimal fields in otpauth.
- In `docs/design/007-storage-and-sync.md:54-91` history merging is subject to
  retention settings. The patch itself applies none, and neither does the model:
  the union is complete.
- The same document has contested changes decided by the later entry. For groups,
  and for vault fields without a time of their own, the code reports a fidelity
  conflict instead, and the model follows the code.

## Model

| member | source | states |
|---|---|---|
| ThreeWayPatch.ThreeWayFieldPatch | crates/vaultkern-model/src/three_way_patch.rs:116-179 | The imperative patch, every stage of it a method over the code's loops (flattening, checks, groups, entries, sibling rebase, rebuild, vault fields, in that order of errors), computes exactly `Patch`, the function every theorem below is about |
| ThreeWayPatch.PreflightErrors | crates/vaultkern-model/src/three_way_patch.rs:116-146 | The checks before any merging can only report repeated icon or tombstone identifiers, an unrepresentable fidelity conflict or an unrepresentable reorder |
| FlattenReports.FlattenReported | crates/vaultkern-model/src/three_way_patch.rs:835-889 | Flattening fails if and only if the walk (a group, its entries, its children) meets an identifier of one kind twice, and reports the first such one |
| PatchTheorems.FlattenedIsExact | crates/vaultkern-model/src/three_way_patch.rs:121-132 | The three inputs are accepted exactly when none repeats an identifier and all share one root; otherwise the error names a duplicate, or the root mismatch when there is no duplicate |
| PatchTheorems.PatchErrors | crates/vaultkern-model/src/three_way_patch.rs:116-179 | For all vaults: a missing parent is never reported; a cycle is reported only if both sides moved groups all three versions hold; root mismatch and duplicates only for inputs that have them |
| PatchSuccess.PatchSucceedsExactly | crates/vaultkern-model/src/three_way_patch.rs:116-179 | The patch succeeds if and only if the inputs are trees of one lineage without repeats, no icon or tombstone repeats, fidelity can be joined and local reordered nothing that stayed, no group or entry was added differently on both sides and no group field is contested, every sibling list can be ordered, the merged parents form one tree, and no vault field or icon is contested; each condition is spelled out on the fields |
| PatchSuccess.CycleReportedExactly | crates/vaultkern-model/src/three_way_patch.rs:134-146 | A cycle is reported if and only if everything up to the hierarchy merges and the merged parents form no tree |
| PatchSuccess.PatchedIsExact | crates/vaultkern-model/src/three_way_patch.rs:134-160 | The success and cycle conditions of group and entry patching |
| PatchSuccess.PreflightIsExact | crates/vaultkern-model/src/three_way_patch.rs:116-146 | The checks pass if and only if icons and tombstones repeat nothing, fidelity joins, and in no group local swapped siblings that stayed while remote orders some of them otherwise |
| PatchOrders.PatchOrdersExactly | crates/vaultkern-model/src/three_way_patch.rs:598-803 | Of inputs that merge otherwise, the patch fails if and only if some sibling list would break a pair of local neighbours; it never does where the sides agree on the shared siblings or nothing follows local's order |
| PatchTheorems.PatchHoldsSurvivors | crates/vaultkern-model/src/three_way_patch.rs:891-1076 | A successful patch returns a tree without repeated identifiers, with the common root, that flattens to exactly the surviving groups and entries, each once, under its merged parent |
| PatchFates.GroupFate | crates/vaultkern-model/src/three_way_patch.rs:987-1076 | A group is in the result if and only if both sides hold it, or one side added it, or it lies in a subtree deleted by one side in which the other changed something, a deletion or move below the root included; a one-sided survivor keeps its place and contents; one that both sides added was alike on both, down to everything below it; a shared one keeps every one-sided edit of its fields, and its place is the later mover's, remote on ties |
| PatchFates.EntryFate | crates/vaultkern-model/src/three_way_patch.rs:891-985 | An entry is in the result if and only if both sides hold it, or one side added it, changed it, or kept its group alive; a one-sided survivor is exactly that side's entry in that side's group; one that both sides added was equal on both; an entry of all three versions keeps every one-sided edit, a contested one goes to the entry modified later, remote on ties, and its history is exactly that of the versions and of whatever lost |
| FidelityFates.EntryFidelityFate | crates/vaultkern-model/src/three_way_patch.rs:1078-1229 | For an entry of all three versions: node order with its slots, and opaque content, each come from the side whose edit stands; custom data drops the nodes of blocks that go; then exactly the slots of shown fields and held attachments stay, once each; what followed a node follows it still, or the nearest one before it that stays |
| FidelityFates.GroupFidelityFate | crates/vaultkern-model/src/three_way_patch.rs:1231-1300 | Likewise for every returned group, wherever it came from, with one slot for each child it has |
| PatchFates.RequiredFate | crates/vaultkern-model/src/three_way_patch.rs:1216-1226 | The snapshots the caller must store are exactly those of the versions that lost fields or place |
| SiblingFates.SiblingFate | crates/vaultkern-model/src/three_way_patch.rs:598-803 | In every sibling list of the result: two neighbours of local's order stay in order where one of them follows local, and two records that follow remote stay in remote's order; a record follows local if only local holds or moved it, remote otherwise |
| VaultFates.VaultFate | crates/vaultkern-model/src/three_way_patch.rs:1302-1427 | The returned vault holds every one-sided edit of name, generator, settings time, opaque content, custom data and icons; the time of the name comes from a side holding it; tombstones are merged one by one for what is dead, the later deletion standing and remote on ties, ascending, and nothing alive has one |
| ReportedErrors.PatchReports | crates/vaultkern-model/src/three_way_patch.rs:116-179 | A failing patch reports the first fault of the first stage that finds one: of the trees the identifier the walk first meets twice; then the first repeated icon or tombstone; then fidelity that cannot be joined, the vault's before the lowest entry's before the lowest group's, with the field; then the lowest group local reordered, entries first; then the lowest clashing group, the lowest list that cannot be ordered, a group on a cycle; then entries likewise; then the lowest clashing icon, or a vault field |
| PatchFates.SharedGroupFields | crates/vaultkern-model/src/three_way_patch.rs:1231-1300 | Every one-sided edit of a shared group's title, icon, custom data or times is kept; where all versions carry times the modification time is the later one, and where some version lacks them the times are merged whole |
| PatchTheorems.RequiredReachTree | crates/vaultkern-model/src/three_way_patch.rs:1216-1226 | Every losing version the caller is told to store is in the history of its entry in the returned tree |
| PatchTheorems.TombstonesAreDead | crates/vaultkern-model/src/three_way_patch.rs:1302-1427 | The returned tombstones are exactly the merged ones that name nothing alive in the returned tree; what the merged ones are is in the row below |
| Tombstones.MergedTombstones | crates/vaultkern-model/src/three_way_patch.rs:1871-1909 | For every identifier, base's, local's and remote's tombstone are merged as one value, the later deletion standing and remote on ties; the result is ascending without repeats |
| VaultFates.LocalTombstones | crates/vaultkern-model/src/three_way_patch.rs:1871-1909 | patch(b, l, b) returns exactly the tombstones of local that name nothing alive |
| PatchLaws.PatchOfNothing | crates/vaultkern-model/src/three_way_patch.rs:116-179 | patch(b, b, r) succeeds with the shape (identifiers, nesting, order) of r, for all vaults that repeat no identifier and share the root |
| PatchLaws.PatchAlreadyApplied | crates/vaultkern-model/src/three_way_patch.rs:116-179 | patch(b, x, x) succeeds with the shape of x, for all such vaults |
| PatchLaws.PatchOntoBase | crates/vaultkern-model/src/three_way_patch.rs:116-179 | patch(b, l, b) gives exactly the shape of l, and is refused, with a sibling-order error, if and only if l lists some siblings that stayed under one parent in another order |
| PatchLaws.OrderCheckIsExact | crates/vaultkern-model/src/three_way_patch.rs:536-567 | With remote unchanged, the order check fails exactly for the inputs named in the previous row, on both children and entries |
| PatchContents.RemoteContentsReturned | crates/vaultkern-model/src/three_way_patch.rs:116-179 | patch(b, b, r) and patch(b, x, x) return every group and entry of remote with its parent and its modelled contents (by the shape laws, there is no other); clocks, histories and fidelity are not compared |
| PatchContents.LocalContentsReturned | crates/vaultkern-model/src/three_way_patch.rs:116-179 | When patch(b, l, b) succeeds it returns every group and entry of local likewise |
| PatchContents.MergedEntryFollows | crates/vaultkern-model/src/three_way_patch.rs:1078-1229 | The merge of an entry that one side left alone holds the other side's contents |
| CycleExample.CycleOccurs | crates/vaultkern-model/src/three_way_patch.rs:805-833 | The cycle is reachable: two folders, each moved into the other by one side, make group patching report it |
| CycleExample.PatchReportsCycle | crates/vaultkern-model/src/three_way_patch.rs:116-179 | The whole patch of those three vaults passes every earlier check and is refused for the cycle |
| PatchRecords.PatchFailures | crates/vaultkern-model/src/three_way_patch.rs:134-160 | Group and entry patching over one lineage fails only on contents, on sibling order, or on a cycle that both sides built |
| PatchRecords.PatchedIsWellFormed | crates/vaultkern-model/src/three_way_patch.rs:134-160 | The patched records are a well-formed flat vault: rooted, keyed, every entry housed, every sibling list numbered 0, 1, 2, ... |
| PatchRecords.PatchedSteps | crates/vaultkern-model/src/three_way_patch.rs:134-160 | The patched records are the surviving groups and entries with only their positions rewritten |
| GroupMerge.GroupsNeverOrphaned | crates/vaultkern-model/src/three_way_patch.rs:987-1076 | Merging the groups of one lineage succeeds exactly when every single group does, never reports an orphan, and leaves the survivors linked up to the root |
| Clashes.GroupFailsExactly | crates/vaultkern-model/src/three_way_patch.rs:987-1065 | One group fails if and only if both sides hold it and some field of it is contested, or base lacks it and the two subtrees differ in any group, entry or place; the error is a fidelity conflict or a concurrent addition accordingly |
| Clashes.PreservedExactly | crates/vaultkern-model/src/three_way_patch.rs:1688-1712 | A group is preserved if and only if it lies, on the side that kept it, in a subtree the other side deleted and inside which some group or entry was added, changed, moved or deleted |
| GroupMerge.GroupParentSurvives | crates/vaultkern-model/src/three_way_patch.rs:987-1076 | Every surviving group but the root has a surviving parent, through deletions, preserved subtrees and moves alike |
| GroupMerge.SharedGroupSurvives | crates/vaultkern-model/src/three_way_patch.rs:987-1076 | A group both sides still hold always survives |
| GroupMerge.MergedParentIs | crates/vaultkern-model/src/three_way_patch.rs:1600-1631 | A group of all three versions ends up under the parent the location merge selects |
| RecordLoops.MergeGroups | crates/vaultkern-model/src/three_way_patch.rs:987-1065 | The loop over the union of identifiers, with its early error returns, computes `GroupsMerged` |
| RecordLoops.MergeGroup | crates/vaultkern-model/src/three_way_patch.rs:987-1065 | The cases of one identifier, deletions and preserved subtrees included, decide the group as `GroupOutcome` does |
| RecordLoops.MergeSharedGroup | crates/vaultkern-model/src/three_way_patch.rs:1020-1062 | The fields of a shared group and then its location are merged, a field conflict failing first |
| GroupMerge.FindOrphan | crates/vaultkern-model/src/three_way_patch.rs:1066-1076 | The parent scan reports the first orphan in identifier order |
| GroupHierarchy.CycleNeedsBothSides | crates/vaultkern-model/src/three_way_patch.rs:987-1076 | If either side kept the base parents of all shared groups, the survivors form a rooted hierarchy and validation passes |
| GroupHierarchy.FollowingIsRooted | crates/vaultkern-model/src/three_way_patch.rs:1600-1631 | Parent links that follow one rooted side, and another only where the first has no record, are rooted |
| GroupHierarchy.SameRootedness | crates/vaultkern-model/src/three_way_patch.rs:635-670 | Rewriting positions cannot make or break a cycle |
| EntrySurvival.EntriesNeverOrphaned | crates/vaultkern-model/src/three_way_patch.rs:891-985 | Entry merging fails only for different entries added under one identifier; otherwise every surviving entry's group survived |
| Clashes.EntryFailsExactly | crates/vaultkern-model/src/three_way_patch.rs:891-985 | One entry fails if and only if base lacks it, both sides hold it, and their parents or values differ; the error names it |
| EntrySurvival.RequiredExactly | crates/vaultkern-model/src/three_way_patch.rs:1216-1226 | What must be stored is exactly the snapshots of losing versions |
| EntrySurvival.EntryHomeSurvives | crates/vaultkern-model/src/three_way_patch.rs:891-985 | Whatever decided an entry's place, that group is among the surviving groups |
| EntrySurvival.RequiredSnapshotsAreKept | crates/vaultkern-model/src/three_way_patch.rs:932-974 | Every required snapshot names a surviving entry whose history holds it |
| RecordLoops.MergeEntries | crates/vaultkern-model/src/three_way_patch.rs:891-985 | The entry loop, collecting required snapshots without repeats, computes `EntriesMerged` |
| RecordLoops.MergeOneEntry | crates/vaultkern-model/src/three_way_patch.rs:891-985 | The cases of one identifier decide the entry as `EntryOutcome` does: additions must agree in place and contents, and deletions yield to changes |
| RecordLoops.MergeSharedEntry | crates/vaultkern-model/src/three_way_patch.rs:932-974 | The fields of a shared entry and then its location are merged; the losing version of either is required |
| Subtrees.ChangeReachesParent | crates/vaultkern-model/src/three_way_patch.rs:1641-1686 | A changed subtree makes the subtree of its parent changed |
| Clashes.ChangedExactly | crates/vaultkern-model/src/three_way_patch.rs:1641-1686 | A subtree counts as changed if and only if its root or something below it, in base or in the side, is held by one of them only or differs in place or contents; deletions and moves out below the root count |
| Subtrees.PreservedParent | crates/vaultkern-model/src/three_way_patch.rs:1688-1712 | Preservation is closed upward: above a preserved group only preserved or mutually held groups remain |
| Subtrees.ChangedChildPreserves | crates/vaultkern-model/src/three_way_patch.rs:1641-1712 | A group changed or added on one side keeps its parent alive against a deletion |
| Subtrees.ChangedEntryPreserves | crates/vaultkern-model/src/three_way_patch.rs:1641-1712 | A changed or added entry keeps its group alive against a deletion |
| SubtreeWalks.FindChange | crates/vaultkern-model/src/three_way_patch.rs:1641-1686 | The loops over both sides' groups and entries, with their early returns, decide whether a subtree changed |
| SubtreeWalks.FindPreserved | crates/vaultkern-model/src/three_way_patch.rs:1688-1702 | The filter over the base groups computes the preserved subtrees |
| SubtreeWalks.BelongsToPreserved | crates/vaultkern-model/src/three_way_patch.rs:1704-1712 | The scan over preserved subtrees, by the walk up the parent links, decides membership |
| SubtreeWalks.CompareSubtrees | crates/vaultkern-model/src/three_way_patch.rs:1714-1740 | Collecting both subtrees and comparing them decides their equality |
| Forest.ValidateIsExact | crates/vaultkern-model/src/three_way_patch.rs:805-833 | Hierarchy validation accepts exactly the rooted hierarchies; on linked records its only error is a cycle |
| Forest.ValidateGroupHierarchy | crates/vaultkern-model/src/three_way_patch.rs:805-833 | The walk with a visited set from every group terminates and computes that validation |
| Forest.GroupIsBelowOrSame | crates/vaultkern-model/src/three_way_patch.rs:1746-1760 | The walk with a visited set terminates, even on cycles, and decides ancestry |
| Forest.ReachedIsBelow | crates/vaultkern-model/src/three_way_patch.rs:1746-1760 | Whatever any number of parent links reaches is reached within one link per record |
| Tree.FlattenIsExact | crates/vaultkern-model/src/three_way_patch.rs:835-889 | Flattening fails exactly on a repeated identifier and otherwise records every node with its parent and position, and nothing else |
| TreeInPlace.FlattenInPlace | crates/vaultkern-model/src/three_way_patch.rs:835-889 | The recursive walk that fills the record tables computes `FlattenVault` |
| Siblings.GroupMirrors | crates/vaultkern-model/src/three_way_patch.rs:569-596 | The sibling lists read off a flattened tree are the tree's own child and entry lists in order |
| Rebuild.FlattenedIsWellFormed | crates/vaultkern-model/src/three_way_patch.rs:835-889 | Every flattened tree is rooted, keyed, housed and densely numbered |
| Rebuild.RebuildOfFlatten | crates/vaultkern-model/src/three_way_patch.rs:1762-1802 | Rebuilding what flattening recorded gives back the tree's shape |
| TreeInPlace.RebuildInPlace | crates/vaultkern-model/src/three_way_patch.rs:1762-1802 | The recursion that picks out, sorts and rebuilds children, then files entries, guarded by the set of groups being visited, computes `RebuildTree` |
| RebuildInverse.RebuildPlacesAll | crates/vaultkern-model/src/three_way_patch.rs:1762-1802 | Rebuilding any well-formed records terminates, succeeds, and places every group and every entry exactly once |
| RebuildInverse.FlattenOfRebuild | crates/vaultkern-model/src/three_way_patch.rs:1762-1802 | Flattening the rebuilt tree gives back the same identifiers, parents, positions and records, up to dropped fidelity slots of groups |
| RebuildInverse.RebuiltIsDistinct | crates/vaultkern-model/src/three_way_patch.rs:1762-1802 | A rebuilt tree repeats no identifier: no record can hang in two places of a rooted hierarchy |
| SiblingOrder.RebasedIsSound | crates/vaultkern-model/src/three_way_patch.rs:765-803 | On success the rebased order is a permutation of the final identifiers, keeps remote's order of the non-preferred ones, and local's order on every adjacent local pair with a preferred member |
| SiblingOrder.AgreeingSidesRebase | crates/vaultkern-model/src/three_way_patch.rs:765-803 | If both sides agree on the shared non-preferred identifiers (and cover the final ones), the rebase succeeds and the result contains both whole orders |
| PatchOrders.MergedOrderExactly | crates/vaultkern-model/src/three_way_patch.rs:672-803 | No sibling is ever missing from the two lists of one lineage: a list is refused if and only if a local pair would break |
| PatchOrders.AgreedOrderMerges | crates/vaultkern-model/src/three_way_patch.rs:672-803 | Where both sides agree on the shared children that follow remote, the list merges and holds both surviving orders |
| PatchOrders.GroupsCovered | crates/vaultkern-model/src/three_way_patch.rs:987-1076 | Each surviving group stands where local has it, preferred, or where remote has it |
| PatchOrders.EntriesCovered | crates/vaultkern-model/src/three_way_patch.rs:891-985 | Likewise each surviving entry |
| SiblingOrder.SpliceIsWeave | crates/vaultkern-model/src/three_way_patch.rs:765-803 | On agreeing sides the backward splicing loop equals a one-pass weave of the two lists |
| SiblingOrder.SpliceKeepsRemote | crates/vaultkern-model/src/three_way_patch.rs:765-803 | Splicing never disturbs remote's order of the non-preferred identifiers, agreeing or not |
| SiblingOrder.RebaseSiblingOrder | crates/vaultkern-model/src/three_way_patch.rs:765-803 | The loop that splices the vector in place computes `Rebased` |
| SiblingMerge.ReconciledIsExact | crates/vaultkern-model/src/three_way_patch.rs:598-670 | Reconciliation fails exactly when some sibling list cannot be rebased, moves nothing to another parent, and numbers every list 0, 1, 2, ... in its rebased order |
| SiblingMerge.MergedOrderIsSound | crates/vaultkern-model/src/three_way_patch.rs:672-700 | The rebased list of one parent is a permutation of exactly the children merged under it |
| SiblingMerge.MergedOrderIgnoresPositions | crates/vaultkern-model/src/three_way_patch.rs:702-763 | Rewriting positions while looping over parents never changes a later parent's rebased list |
| SiblingMerge.ReconcileSiblingOrders | crates/vaultkern-model/src/three_way_patch.rs:598-670 | The loop over parents that rewrites positions as it goes computes `Reconciled` |
| SiblingMerge.EnsureLocalSiblingOrderIsExact | crates/vaultkern-model/src/three_way_patch.rs:509-567 | The representability check fails exactly when, under some base group, local reordered children or entries that stayed there on both sides |
| SiblingPairs.ReorderedExactly | crates/vaultkern-model/src/three_way_patch.rs:536-567 | That is: two siblings that stayed under the group stand in local as in base the other way round, and two of those that stayed stand in remote otherwise than in local |
| SiblingFates.FollowsExactly | crates/vaultkern-model/src/three_way_patch.rs:702-763 | A record follows local if and only if local has it where it ended up and remote does not hold it, or local's move decided: remote left it in place, or both moved it alike and local did later |
| VaultLoops.CheckSiblingOrder | crates/vaultkern-model/src/three_way_patch.rs:509-567 | The loop over the base groups, with its early returns, computes that check |
| RecordLaws.LocalOrderStands | crates/vaultkern-model/src/three_way_patch.rs:598-803 | With remote unchanged and no stayed sibling reordered, every rebased list is local's |
| RecordLaws.RemoteOrderStands | crates/vaultkern-model/src/three_way_patch.rs:598-803 | With nothing preferred from local, every rebased list is remote's |
| EntryMerge.NoLostEdit | crates/vaultkern-model/src/three_way_patch.rs:1078-1229 | No edit is lost: one-sided changes of any field, key, attachment or credential are taken; where both sides changed the same thing the entry modified later stands, remote on a tie; the place is the later mover's; the history is exactly the three histories and the snapshots of the versions that lost fields or place, and those are exactly what must be stored |
| EntryMerge.ConflictsExactly | crates/vaultkern-model/src/three_way_patch.rs:1078-1229 | The merge keeps the loser if and only if title, user name, password, tags, node order, opaque content, icon, one attribute, one whole credential, one attachment or one custom data value was changed on both sides to different values |
| EntryMerge.CredentialsAreAtomic | crates/vaultkern-model/src/three_way_patch.rs:1166-1192 | The merged TOTP projection together with all its reserved attributes is one side's as a whole; likewise the passkey |
| EntryMerge.MergedAttributeAt | crates/vaultkern-model/src/three_way_patch.rs:1554-1585 | Plain attributes merge key by key and the two credential ranges come from their units, without overlap or gap |
| EntryMerge.HistoryUnionHoldsAll | crates/vaultkern-model/src/three_way_patch.rs:1804-1812 | The united history starts with remote's in order and holds exactly the snapshots of the three histories |
| EntryMerge.RequiredAreKept | crates/vaultkern-model/src/three_way_patch.rs:932-974 | Each snapshot a merged entry requires is in its own history |
| RecordMerge.MergeEntry | crates/vaultkern-model/src/three_way_patch.rs:1078-1229 | The imperative entry merge, with one conflict flag threaded through every field, computes `MergedEntry` |
| RecordMerge.MergeScalars | crates/vaultkern-model/src/three_way_patch.rs:1088-1165 | The fields are selected one by one and the flag ends up set exactly if it was set or some field conflicts |
| RecordMerge.MergeAttributes | crates/vaultkern-model/src/three_way_patch.rs:1166-1192 | Attributes and both credential units are merged as specified, and the flag tells whether any conflicted |
| RecordMerge.MergeGroupTimes | crates/vaultkern-model/src/three_way_patch.rs:1498-1544 | Group times merge stamp by stamp, with absent times on either side |
| RecordMerge.MergeGroupFields | crates/vaultkern-model/src/three_way_patch.rs:1231-1300 | Group merging fails exactly on a conflict in some field, and otherwise gives the merged group |
| RecordMerge.MergeUnits | crates/vaultkern-model/src/three_way_patch.rs:452-493 | The loop over custom-data units selects each unit and flags exactly the conflicting values |
| FieldMerge.ConflictFlag.MergeValue | crates/vaultkern-model/src/three_way_patch.rs:1429-1450 | A one-sided change is selected, a contested one goes to the preferred side and sets the flag, and the flag is never cleared |
| FieldMerge.ConflictFlag.MergeKeyedMap | crates/vaultkern-model/src/three_way_patch.rs:1554-1585 | Over the given keys, each key is merged like a value, with deletion of a key being a change |
| MetaMerge.UniqueMetaIdsIsExact | crates/vaultkern-model/src/three_way_patch.rs:181-201 | The check accepts exactly the vaults whose icons and tombstones repeat no identifier |
| VaultLoops.CheckUniqueMetaIds | crates/vaultkern-model/src/three_way_patch.rs:181-201 | The two insertion loops compute that check |
| MetaMerge.RepresentableIsExact | crates/vaultkern-model/src/three_way_patch.rs:203-309 | The fidelity check passes if and only if no fidelity of the vault, a group or an entry was changed on both sides in ways that cannot be joined |
| VaultLoops.CheckFidelity | crates/vaultkern-model/src/three_way_patch.rs:203-286 | The loops over groups and entries, with their early returns, compute that check |
| VaultFates.FidelityJoinsExactly | crates/vaultkern-model/src/three_way_patch.rs:203-309 | The fidelity check passes if and only if no opaque content is contested and every record's custom-data blocks can be joined: only one side has new ones, both the same, or local's are its edits made in place |
| MetaMerge.MergedMetaIsExact | crates/vaultkern-model/src/three_way_patch.rs:1302-1427 | Meta merging fails exactly on clashing icons or on a field both sides changed differently; what it gives is in the `VaultFates` rows |
| VaultFates.MergedVault | crates/vaultkern-model/src/three_way_patch.rs:1302-1427 | Meta merging succeeds if and only if nothing is contested, and then every one-sided change of the vault's own fields is in the result |
| VaultFates.MergedVaultData | crates/vaultkern-model/src/three_way_patch.rs:1302-1427 | The vault's custom data, its blocks, opaque content and node order are merged as for every record |
| VaultLoops.MergeMeta | crates/vaultkern-model/src/three_way_patch.rs:1302-1427 | The imperative merge of the vault fields, with one conflict flag, computes `MergedMeta` |
| VaultLoops.MergeIcons | crates/vaultkern-model/src/three_way_patch.rs:1911-1980 | The loop over the icon identifiers, with its early errors, computes `MergedIcons` |
| VaultLoops.MergeDeletions | crates/vaultkern-model/src/three_way_patch.rs:1871-1909 | The loop over the tombstone identifiers computes `MergedDeletions` |
| MetaMerge.StampBelongsToValue | crates/vaultkern-model/src/three_way_patch.rs:1453-1486 | The merged change time is the time of a side that holds the merged value |
| MetaMerge.AllIconsAreExact | crates/vaultkern-model/src/three_way_patch.rs:1911-1980 | Icons merge exactly when none was added or changed differently on both sides |
| Icons.MergedIconsFail | crates/vaultkern-model/src/three_way_patch.rs:1911-1980 | Merging icons fails if and only if one was added, or redrawn, differently on both sides |
| Icons.MergedIconsKept | crates/vaultkern-model/src/three_way_patch.rs:1911-1980 | What only one side added, redrew or deleted is taken from there, a redrawing outlives a deletion, the time is the latest of any version with the same image and name, and the list is ascending |
| MetaMerge.BuriedAreDead | crates/vaultkern-model/src/three_way_patch.rs:1871-1909 | Dropping the tombstones of living objects keeps exactly the others |
| FidelitySlots.AnchorFollowsNode | crates/vaultkern-model/src/three_way_patch.rs:2069-2128 | An anchor that named a node afterwards names that node if it survives, else its nearest surviving predecessor, else nothing |
| FidelitySlots.KeptCounts | crates/vaultkern-model/src/three_way_patch.rs:2069-2128 | How far the rebuilt nodes reach at each recorded node, and that a surviving one stands there |
| FidelitySlots.RetainedOwners | crates/vaultkern-model/src/three_way_patch.rs:2069-2128 | The retained owners are duplicate-free, current, and one per remaining slot; other element names are untouched |
| FidelitySlots.RetainedExactly | crates/vaultkern-model/src/three_way_patch.rs:2069-2128 | Of the owners that have a node exactly the current ones stay, once each and in order, and all nodes of other names stay |
| RecordSlots.RetargetedAnchor | crates/vaultkern-model/src/three_way_patch.rs:2069-2128 | An anchor names the same node, else the nearest one before it that stays, else nothing; which nodes stay is said node by node |
| FidelitySlots.DanglingAnchor | crates/vaultkern-model/src/three_way_patch.rs:2069-2128 | An anchor at the element that named no node is dropped; anchors at other elements never change |
| FidelitySlots.RemovalIsEmptyRetention | crates/vaultkern-model/src/lib.rs:1292-1337 | Removing a known element outright agrees with retention of nothing |
| FidelitySlots.RemovalLeavesNone | crates/vaultkern-model/src/lib.rs:1292-1337 | After removal the element names no node, and all others stay |
| FidelitySlots.RetainTrackedSlots | crates/vaultkern-model/src/three_way_patch.rs:2069-2112 | The rewriting loop with its occurrence counters computes the specified nodes, owners and replacements |
| FidelitySlots.RemoveKnownNodes | crates/vaultkern-model/src/lib.rs:1292-1337 | The history variant of that loop computes the specified removal |
| Normalize.RetainSlots | crates/vaultkern-model/src/three_way_patch.rs:2016-2067 | Slots of one element and every anchor on them are retained together |
| Normalize.PrepareHistorySnapshot | crates/vaultkern-model/src/lib.rs:1278-1290 | The history is removed together with its node and slots, and nothing else |
| Normalize.SnapshotHasNoHistory | crates/vaultkern-model/src/lib.rs:1278-1290 | A snapshot has no history, no node for one, and otherwise the entry's contents; without a history node nothing else changes |
| RecordSlots.SnapshotExactly | crates/vaultkern-model/src/lib.rs:1278-1337 | A snapshot is the entry without its history and without the nodes for one; opaque content and blocks stay, following the node before where theirs went |
| Normalize.NormalizeEntryInPlace | crates/vaultkern-model/src/three_way_patch.rs:2016-2067 | Retaining the slots of every element of an entry in turn computes `NormalizeEntrySlots` |
| Normalize.NormalizeGroupInPlace | crates/vaultkern-model/src/three_way_patch.rs:2016-2067 | Likewise for a group |
| RecordSlots.NormalizedEntry | crates/vaultkern-model/src/three_way_patch.rs:2016-2046 | Exactly the slots of the five standard fields, the attributes of the view and the attachments stay, and nothing else of the entry changes |
| RecordSlots.NormalizedGroup | crates/vaultkern-model/src/three_way_patch.rs:2048-2067 | Exactly the slots of the child entries and groups stay, and nothing else of the group changes |
| GroupSlots.FlattenHoldsSlots | crates/vaultkern-model/src/three_way_patch.rs:1762-1802 | Every group of a rebuilt tree is its record with exactly the slots of the children it has |
| CustomData.MergeAgreement | crates/vaultkern-model/src/three_way_patch.rs:400-450 | Reading the merged blocks last-wins with the merged map gives back exactly the merged units, values and times |
| CustomData.ReconciledAgrees | crates/vaultkern-model/src/lib.rs:564-649 | After reconciliation the last-wins reading of the blocks equals the map, the updated key has the given time, and every other kept value its old time |
| CustomData.ReconcileIdempotent | crates/vaultkern-model/src/lib.rs:564-649 | Reconciling again with the same map and update changes nothing, anchors and node order included |
| CustomData.StampedUnits | crates/vaultkern-model/src/three_way_patch.rs:382-397 | Stamping the last occurrences makes the blocks read back as the units |
| CustomData.ViewRevised | crates/vaultkern-model/src/lib.rs:616-637 | Revising last occurrences keeps every key and changes exactly the items that are read |
| CustomData.OwnAnchorsStay | crates/vaultkern-model/src/lib.rs:651-666 | When every block keeps its own occurrence, no anchor moves |
| CustomDataBlocks.RetainedBlocks | crates/vaultkern-model/src/lib.rs:564-606 | A block stays if and only if it was empty or some item of it does; the others go, and every survivor keeps its remaining items in order |
| CustomDataBlocks.AnchorFollowsBlock | crates/vaultkern-model/src/lib.rs:651-666 | What followed a surviving block follows it at its new place; what followed one that goes takes over that block's own anchor |
| CustomDataInPlace.ReconcileBlocks | crates/vaultkern-model/src/lib.rs:564-649 | The in-place reconciliation (block retention, last-position table, write-back loop, appended block) computes `Reconciled` |
| CustomDataInPlace.TableIsExact | crates/vaultkern-model/src/lib.rs:609-614 | The last-position table holds a position exactly when it is the last one of its key |
| CustomDataInPlace.ApplyLastModified | crates/vaultkern-model/src/three_way_patch.rs:382-397 | The stamping loop over last positions computes `WithStamps` |
| RecordMerge.MergeCustomDataFields | crates/vaultkern-model/src/three_way_patch.rs:400-450 | The imperative custom-data merge computes `MergedSide` and flags exactly the conflicting values |
| CustomDataFates.JoinableExactly | crates/vaultkern-model/src/three_way_patch.rs:288-309 | Custom data can be rebased if and only if local's or remote's blocks are base's, both are equal, or local's are base's with its edits made in place |
| CustomDataFates.ReplayIsOnePass | crates/vaultkern-model/src/three_way_patch.rs:311-356 | Replaying local's additions one by one gives local's blocks if and only if no key was added twice and they are base's blocks with removed keys filtered out, values and times rewritten and added items appended |
| CustomDataFates.MergedStamps | crates/vaultkern-model/src/three_way_patch.rs:452-493 | The merged blocks match the merged map; a key's time is that of the side holding the merged value, the later where both do |
| CustomDataFates.MergedCarries | crates/vaultkern-model/src/three_way_patch.rs:400-450 | Remote's items carry the merge, unless only local has new blocks that its edits do not explain: then local's do; surviving items keep their order, missing keys follow in theirs |
| DataFidelity.DataMergedExactly | crates/vaultkern-model/src/three_way_patch.rs:400-450 | All of it at once, with the blocks that stay, the anchor of each, the opaque content that followed one, and the nodes dropped with the others |
| OtpauthRoundTrip.RoundTripIsExact | crates/vaultkern-model/src/lib.rs:1016-1112 | A specification survives printing and parsing if and only if it is representable, whatever entry prints it |
| OtpauthReading.ParsedExactly | crates/vaultkern-model/src/lib.rs:1016-1112 | A URI is accepted as a specification if and only if it says so: the prefix in any case, the label up to the first '?', and between the '&'s only the five parameters, none twice, with a secret; an absent algorithm, digits or period is SHA1, 6 and 30, a present one its decoded value within its width; the issuer is the query's if given, an empty one included, else the label's; digits 1 to 9, period not 0, an account, and no colon in it without an issuer |
| OtpauthReading.LabelExactly | crates/vaultkern-model/src/lib.rs:1024-1042 | The label is cut at its first colon, else at its first encoded colon, dropping encoded spaces after it, else it is the account |
| OtpauthReading.NumberExactly | crates/vaultkern-model/src/lib.rs:1074-1086 | A number is read if and only if it is an optional plus sign, any zeros and the decimal form of a value within the width |
| OtpauthReading.PrintedExactly | crates/vaultkern-model/src/lib.rs:1543-1583 | What is printed, character by character: prefix, label, secret, issuer if any, algorithm, digits, period |
| OtpauthRoundTrip.AcceptedIsRepresentable | crates/vaultkern-model/src/lib.rs:1016-1112 | Every specification the parser accepts is representable |
| OtpauthRoundTrip.ParsePrintParse | crates/vaultkern-model/src/lib.rs:1543-1583 | parse(print(parse(u))) = parse(u) for every accepted text u |
| OtpauthRoundTrip.ReadLabel | crates/vaultkern-model/src/lib.rs:1543-1583 | The printed label reads back as the issuer and account, through literal, encoded and absent separators |
| OtpauthLabels.ParseOfAnyPrint | crates/vaultkern-model/src/lib.rs:1016-1112 | For every typed specification, parsing its print gives it back with the label as that reads, or is refused; both cases by an exact condition |
| OtpauthLabels.PrintedAlike | crates/vaultkern-model/src/lib.rs:1543-1583 | What a printed URI parses to prints as the same URI if and only if the label does not shift |
| Otpauth.ParseOtpauthLoop | crates/vaultkern-model/src/lib.rs:1016-1112 | The loop over query pairs that updates locals computes `ParseOtpauth`, which `OtpauthReading.ParsedExactly` describes |
| Otpauth.ParseOfDecimal | crates/vaultkern-model/src/lib.rs:1074-1086 | A printed number reads back as itself exactly when it fits the field's width |
| Otpauth.SplitAppend | crates/vaultkern-model/src/lib.rs:1050-1053 | Appending a separated part appends it to the split parts |
| PercentCoding.DecodeOfEncode | crates/vaultkern-model/src/lib.rs:1585-1599 | Decoding an encoded text gives the text back |
| PercentReading.DecodedExactly | crates/vaultkern-model/src/lib.rs:1782-1830 | An escape of two hexadecimal digits in either case is its byte; every other byte, a percent sign without digits included, is itself |
| PercentReading.EncodedExactly | crates/vaultkern-model/src/lib.rs:1585-1599 | An unreserved byte is written as itself, any other in two capital digits |
| PercentReading.Utf8Exactly | crates/vaultkern-model/src/lib.rs:1805-1812 | Decoded text is accepted if and only if it is the UTF-8 form of a sequence of Unicode scalar values |
| PercentCoding.EncodedCharacters | crates/vaultkern-model/src/lib.rs:1585-1599 | Encoded text holds only the unreserved characters of section 2.3 of RFC 3986 and the percent sign |
| PercentCoding.NoEncodedSeparator | crates/vaultkern-model/src/lib.rs:1768-1773 | Text without a colon never encodes to something with an encoded label separator |
| PercentCoding.PercentDecodeLoop | crates/vaultkern-model/src/lib.rs:1782-1812 | The index loop into a buffer, which keeps malformed escapes, computes `PercentDecode` |
| AttributeKeys.RangesDisjoint | crates/vaultkern-model/src/lib.rs:1499-1541 | No attribute key belongs to both credentials |
| Attributes.MaterializeIsIdempotent | crates/vaultkern-model/src/lib.rs:1340-1393 | Storing the materialised attributes and clearing both projections leaves the materialised view unchanged if and only if no projected TOTP prints a label that reads back as another one |
| Attributes.ShiftedView | crates/vaultkern-model/src/lib.rs:1543-1583 | Such entries exist: an account with a colon and no issuer is stored as an issuer and an account |
| Attributes.TotpReadsBack | crates/vaultkern-model/src/lib.rs:1425-1446 | The fields a representable TOTP writes are read back as that TOTP, from the URI and all discrete parameters together |
| Attributes.TotpReadsAsParsed | crates/vaultkern-model/src/lib.rs:1425-1446 | The fields any typed TOTP writes are read back as its printed URI parses |
| Attributes.PasskeyReadsBack | crates/vaultkern-model/src/lib.rs:844-890 | The fields a passkey writes are read back as that passkey |
| Attributes.ViewSpellsTotp | crates/vaultkern-model/src/lib.rs:1395-1446 | The materialised view spells the entry's effective TOTP if and only if a projected one has the form that survives printing |
| Attributes.ViewSpellsPasskey | crates/vaultkern-model/src/lib.rs:844-890 | The materialised view spells the entry's effective passkey |
| AttributeReading.TotpFromExactly | crates/vaultkern-model/src/lib.rs:1425-1519 | Attributes are projected to a TOTP if and only if none of the eight other kinds of secret is there, the URI says it, and each discrete attribute present agrees, absent ones beside a discrete secret standing for SHA1, 6 and 30 |
| AttributeReading.PasskeyFromExactly | crates/vaultkern-model/src/lib.rs:844-966 | Attributes are projected to a passkey if and only if the four required ones are there and the flags, if present, are 0, 1, true or false in any case |
| AttributeReading.ViewExactly | crates/vaultkern-model/src/lib.rs:1340-1422 | The view, name by name: the five attributes of the effective TOTP and those of the effective passkey with their protection, alone in their ranges; without one, the secrets of its range protected; everything else as it is |
| Attributes.FlagReadsBack | crates/vaultkern-model/src/lib.rs:958-966 | A written flag is read back |
| AttributesInPlace.MaterializeInPlace | crates/vaultkern-model/src/lib.rs:1340-1393 | The view built field by field in place is `Materialize`, projectability included |
| AttributesInPlace.AttributeView.OverlayTotp | crates/vaultkern-model/src/lib.rs:1395-1422 | The overlay replaces the whole TOTP range and nothing else |
| AttributesInPlace.AttributeView.OverlayPasskey | crates/vaultkern-model/src/lib.rs:844-890 | The overlay replaces the whole passkey range and nothing else |
| CanonicalInjective.CanonicalAndInjective | crates/vaultkern-model/src/canonical_serialization.rs:354-458 | Two entries that encode give equal bytes if and only if all 27 encoded fields are equal: tags as a set, the maps as maps, associations as a list |
| CanonicalLayout.LayoutExactly | crates/vaultkern-model/src/canonical_serialization.rs:354-458 | The bytes of an entry in full: the mark, version 1, and every field in its place; lengths and counts in four bytes, times in eight, lowest first, signed ones by their remainder; sets and maps listed once each in the order of their bytes |
| CanonicalLayout.EntryLayout | crates/vaultkern-model/src/canonical_serialization.rs:130-206 | Which field of a vault entry each of them is, with the attributes of the view and the last custom data item of each key |
| CanonicalLayout.FitsExactly | crates/vaultkern-model/src/canonical_serialization.rs:23-29 | An entry encodes if and only if identifiers have 16 bytes, content hashes 32, and every text and collection less than 2^32 bytes or members |
| CanonicalInjective.SetCancel | crates/vaultkern-model/src/canonical_serialization.rs:306-324 | A set's bytes determine the set and where they end |
| CanonicalInjective.MapCancel | crates/vaultkern-model/src/canonical_serialization.rs:326-340 | A map's bytes determine the map and where they end |
| CanonicalInjective.ListCancel | crates/vaultkern-model/src/canonical_serialization.rs:294-304 | A list's bytes determine the list and where they end |
| CanonicalInjective.TextIsPrefixCode | crates/vaultkern-model/src/canonical_serialization.rs:269-271 | No length-prefixed text is a proper prefix of another |
| CanonicalInjective.FieldsDetermine | crates/vaultkern-model/src/canonical_serialization.rs:354-458 | The list of encoded fields leaves out nothing of the entry |
| CanonicalEncoder.CanonicalEntryBytes | crates/vaultkern-model/src/canonical_serialization.rs:354-458 | Encoding a projection succeeds exactly when every length and count is below 2^32, and then gives the canonical bytes; otherwise it reports the first length or count, in writing order, that does not fit |
| CanonicalProjection.CanonicalBytesOf | crates/vaultkern-model/src/canonical_serialization.rs:61-206 | Encoding an entry counts its attachments while projecting it: too many are reported before anything else, otherwise the first overflow in writing order |
| CanonicalEncoder.Encoder.WriteSet | crates/vaultkern-model/src/canonical_serialization.rs:306-324 | Visiting the members in ascending order, as the ordered set gives them, collecting, sorting and writing their codes gives the one byte form of the set, or the first overflow |
| CanonicalEncoder.Encoder.WriteMap | crates/vaultkern-model/src/canonical_serialization.rs:326-340 | Likewise for a map in the order of its keys' bytes |
| CanonicalEncoder.Encoder.WriteEntries | crates/vaultkern-model/src/canonical_serialization.rs:326-340 | Keys and values are written in the given order, failing exactly at an entry that does not fit |
| CanonicalEncoder.Encoder.WriteValue | crates/vaultkern-model/src/canonical_serialization.rs:354-458 | A value of a list or map is written as its own kind is, up to its first overflow |
| CanonicalEncoder.Encoder.WriteList | crates/vaultkern-model/src/canonical_serialization.rs:294-304 | The count and then the values in order, up to the first overflow |
| CanonicalEncoder.Encoder.WriteTextOption | crates/vaultkern-model/src/canonical_serialization.rs:277-292 | An optional text is a flag byte and its bytes, when present |
| CanonicalEncoder.Encoder.WriteFixedOption | crates/vaultkern-model/src/canonical_serialization.rs:277-292 | An option of fixed width is a flag byte and its value, when present |
| CanonicalEncoder.Encoder.WriteAutoType | crates/vaultkern-model/src/canonical_serialization.rs:422-440 | Auto-type settings are written as flag, obfuscation, sequence and associations |
| CanonicalEncoder.Encoder.WriteByteLength | crates/vaultkern-model/src/canonical_serialization.rs:250-253 | A length is written in four bytes exactly when it is below 2^32 |
| CanonicalEncoder.Encoder.WriteCount | crates/vaultkern-model/src/canonical_serialization.rs:255-258 | A count is written in four bytes exactly when it is below 2^32 |
| CanonicalChecks.FieldDecides | crates/vaultkern-model/src/canonical_serialization.rs:23-29 | A field is written in full exactly when it fits; otherwise the error names a length or count of 2^32 or more |
| CanonicalChecks.FieldsDecide | crates/vaultkern-model/src/canonical_serialization.rs:354-458 | Over a list of fields, the first that does not fit is the one reported |
| CanonicalProjection.StoringKeepsCanonicalBytes | crates/vaultkern-model/src/canonical_serialization.rs:130-206 | Storing the materialised view and clearing the projections leaves the canonical bytes unchanged if and only if, for entries that encode, no projected TOTP's label shifts |
| CanonicalProjection.EqualBytesMeanEqualContent | crates/vaultkern-model/src/canonical_serialization.rs:130-206 | Equal bytes of two entries, each with its own address, notes, times, protection and auto-type, mean that all of these, the fields, materialised views and custom data are equal; history and raw state do not count |
| CanonicalProjection.CollectDataItems | crates/vaultkern-model/src/canonical_serialization.rs:78-94 | The scan over all blocks keeps the last item of each key |
| CeremonySearch.CanReachActivePhase | apps/browser-extension/src/webauthnProxy.ts:3551-3584 | For any edge table the search terminates and answers true if and only if a non-empty path of allowed edges joins two distinct active phases |
| CeremonySearch.ClosedSetHoldsAll | apps/browser-extension/src/webauthnProxy.ts:3551-3584 | No path leads out of a set closed under usable edges |
| CeremonyReplay.ReplayTransitions | apps/browser-extension/src/webauthnProxy.ts:3975-4017 | For any edge table the search returns a path of minimum length from pre-authorization to the mirror's phase, or none exactly when there is none |
| CeremonyReplay.ReplayMirrorPhase | apps/browser-extension/src/webauthnProxy.ts:3947-3972 | Replay ends at the mirror's phase when every transition is accepted, and otherwise at the end of the longest accepted leading run of a shortest path |
| CeremonyReplay.ReplayStaysOnPath | apps/browser-extension/src/webauthnProxy.ts:3947-3972 | The phase a partial replay ends at is reachable along allowed edges |
| CeremonyTable.CompletionNeedsProvenOrigin | tools/vaultkern-runtime/src/passkey_ceremony_transitions.json:1-19 | In the shipped table completion and credential resolution are reachable exactly for a ceremony whose origin is proven, directly or by related-origin validation |
| CeremonyTable.ShippedEdges | tools/vaultkern-runtime/src/passkey_ceremony_transitions.json:1-19 | The shipped edges, each by name |
| CeremonyTable.OtherPhases | tools/vaultkern-runtime/src/passkey_ceremony_transitions.json:1-19 | User authorization is always reachable, network validation exactly for an origin that does not match but has a related one, user selection exactly where completion is |
| CreateFlow.ServeRequest | apps/browser-extension/src/webauthnProxy.ts:4443-4755 | Over the first handler and any number of prompts, recoveries, sweeps and cancellations in any order, before or after an answer, each overlapped at every await by whatever others may do, every run's trace is safe: no handler sends a step out of its turn, and all theorems below apply |
| CreateFlow.HandleCreateRequest | apps/browser-extension/src/webauthnProxy.ts:4443-4755 | The first handler ends parked for a prompt, unanswered and not past user authorization, or having answered or noticed the cancellation |
| CreateFlow.ResumeAfterPrompt | apps/browser-extension/src/webauthnProxy.ts:2263-2523 | A prompt is taken up only while the mirror is parked, whatever became of earlier attempts; the handler then ends having answered, or having created a credential and noticed the cancellation |
| CreateFlow.Reconcile | apps/browser-extension/src/webauthnProxy.ts:490-690 | Recovery asks the native runtime. Told of a ceremony in its completion phase it marks a committed one and aborts any other; told of an earlier phase it keeps a mirror in step, moves on one that can follow along allowed edges, and closes the ceremony of any other. It drops the mirror where the code does, all beside handlers at work |
| CreateFlow.RecoverKnown | apps/browser-extension/src/webauthnProxy.ts:615-682 | The command recovery sends for each native record it was told of, and whether it drops the mirror |
| CreateFlow.SweepNatively | tools/vaultkern-runtime/src/runtime.rs:4049-4108 | The sweep that precedes another request's registration is one more party that sends only this |
| CreateFlow.World.Interfere | apps/browser-extension/src/webauthnProxy.ts:2828-2852 | At an await the other parties do anything they are allowed to; what this party was told and did stays |
| CreateFlow.World.Call | tools/vaultkern-runtime/src/runtime.rs:3942-3988 | A command is lost, refused, broken off or carried out, with or without its answer arriving; the party learns no more than the acknowledgement |
| CreateFlow.Handler.CreateSaveCommitDeliver | apps/browser-extension/src/webauthnProxy.ts:4610-4689 | Exactly the commands of the code, in order: create; abort if canceled; save, with an abort when that fails; abort if canceled; commit; then finish. A thrown error means no commit was acknowledged and nothing answered |
| CreateFlow.Handler.AbortIfCanceled | apps/browser-extension/src/webauthnProxy.ts:4632-4640 | The handler looks whether the request is canceled, and aborts exactly then |
| CreateFlow.Handler.TryCreate | apps/browser-extension/src/webauthnProxy.ts:4480-4689 | A first handler that finishes sent register, session, authorization, vault binding, resolution, the exclusion check at will, completion, and then the tail above, each acknowledged |
| CreateFlow.Handler.TryResume | apps/browser-extension/src/webauthnProxy.ts:2290-2480 | A resuming handler that finishes sent vault binding, resolution, the exclusion check at will, completion, and then the tail above |
| CreateFlow.Handler.AbortPending | apps/browser-extension/src/webauthnProxy.ts:4142-4155 | The strict abort sends one abort, closes the handler's ceremony exactly when that is acknowledged, and the handler sends no commit afterwards either way |
| CreateFlow.Handler.SavePending | apps/browser-extension/src/webauthnProxy.ts:4157-4180 | A failed save is followed by exactly one abort before its error goes on, and the handler never commits afterwards |
| CreateFlow.Handler.CommitPending | apps/browser-extension/src/webauthnProxy.ts:4182-4195 | One commit is sent, and it fails exactly when it is not acknowledged |
| CreateFlow.Handler.FinishCommitted | apps/browser-extension/src/webauthnProxy.ts:4215-4262 | A canceled request is not answered but marked; otherwise the credential is handed over and that recorded, or the delivery marked unknown; nothing is aborted |
| CreateFlow.Handler.DeliverRegistration | apps/browser-extension/src/webauthnProxy.ts:1746-1785 | The browser gets the credential once; if it took it that is recorded, failing that marked unknown; nothing is thrown |
| CreateFlow.Handler.CatchCreateError | apps/browser-extension/src/webauthnProxy.ts:4690-4755 | The catch block gives up an uncommitted ceremony: in the completion phase an abort, failing that a close; before, a close, aborted for the user's own abort and failed otherwise. A canceled request is not answered, and marked if committed; any other gets one error answer |
| CreateFlow.Handler.CatchResumeError | apps/browser-extension/src/webauthnProxy.ts:2481-2523 | The resuming catch block aborts in the completion phase, marks after a commit and closes otherwise, and always sends one error answer |
| CreateFlow.Handler.CloseCeremony | apps/browser-extension/src/webauthnProxy.ts:4264-4288 | Exactly one close, of the phase the handler stands in, and none for a ceremony that is over; closing answers nothing, and a refusal is swallowed |
| CreateFlow.Handler.Authorize | apps/browser-extension/src/webauthnProxy.ts:6246-6366 | Authorization neither creates nor answers: it leaves the ceremony in user authorization, parked for a prompt or ready to go on, or fails |
| CreateFlow.Handler.AskUser | apps/browser-extension/src/webauthnProxy.ts:6279-6295 | An open prompt parks the mirror; without an answer the handler leaves the request to it |
| CreateFlow.Handler.Restore | apps/browser-extension/src/webauthnProxy.ts:6147-6244 | A resumed handler may store its parked mirror again before it has gone on, and binds its vault |
| CreateFlow.Handler.AdvanceToResolution | apps/browser-extension/src/webauthnProxy.ts:5695-5735 | On success the ceremony went straight to credential resolution, or through network validation |
| CreateFlow.Handler.CompleteWithError | apps/browser-extension/src/webauthnProxy.ts:7162-7180 | The browser gets exactly one error answer, and nothing else happens |
| NativeCeremony.CommandKeeps | tools/vaultkern-runtime/src/runtime.rs:4393-4612 | No command reopens a closed ceremony or leads back before completion; a ceremony becomes committed only by committing a saved one in its completion phase, and is rolled back only by an abort or sweep of an uncommitted one there |
| NativeCeremony.CommandOutcome | tools/vaultkern-runtime/src/runtime.rs:4393-4612 | From where and to what each accepted command takes an open ceremony |
| NativeCeremony.ClosedIsFinal | tools/vaultkern-runtime/src/runtime.rs:4393-4612 | On a closed ceremony whatever is still acknowledged changes nothing |
| NativeCeremony.RepeatingIsHarmless | tools/vaultkern-runtime/src/runtime.rs:4393-4612 | Repeating a save, commit, abort, delivery mark or completion-phase close is acknowledged and changes nothing further |
| CreateLedger.EveryRunIsInStep | apps/browser-extension/src/webauthnProxy.ts:2263-2523 | In every safe run at most one handler is past user authorization, and what it was told is true of the native ceremony, rollbacks aside |
| CreateSafety.OneGoesOn | tools/vaultkern-runtime/src/runtime.rs:3942-3988 | However many handlers serve the request, one after the other or overlapping, at most one gets past user authorization |
| CreateSafety.OneCreator | tools/vaultkern-runtime/src/runtime.rs:4203-4235 | All create, save and commit commands of a ceremony are one handler's |
| CreateSafety.DeliveryIsOrdered | apps/browser-extension/src/webauthnProxy.ts:4610-4689 | A credential reaches the browser only from a handler to which create, save and commit were acknowledged in that order |
| CreateSafety.CommitAndRollbackExclude | tools/vaultkern-runtime/src/runtime.rs:4393-4612 | No ceremony is both committed and rolled back, in any run and by whichever parties |
| CreateSafety.CommitAndAbortExclude | apps/browser-extension/src/webauthnProxy.ts:4142-4195 | By its own acknowledgements no party sends an abort after a commit, or a commit after an abort |
| CreateSafety.DeliveryIsDurableExactly | tools/vaultkern-runtime/src/runtime.rs:4393-4612 | A delivered credential is committed for good if and only if nothing rolled its ceremony back, and only recovery or a sweep can have done that |
| CreateSafety.CommitStandsExactly | tools/vaultkern-runtime/src/runtime.rs:4565-4610 | An acknowledged commit stands if and only if it found the ceremony in its completion phase or committed already; on a closed one it is acknowledged without effect |
| CreateSafety.LooksFirst | apps/browser-extension/src/webauthnProxy.ts:4590-4660 | In every run the exclusion check, the step into the completion phase, save, commit and the delivery of a credential are taken only by a handler that found the request not canceled and sent nothing since |
| CreateSafety.CanceledExactly | apps/browser-extension/src/webauthnProxy.ts:2828-2852 | The request counts as canceled if and only if a cancellation came and the first handler has not ended since |
| CreateRuns.DeliveredThoughRolledBack | apps/browser-extension/src/webauthnProxy.ts:615-655 | Recovery that aborts between save and commit does let a credential be delivered that is not committed |
| CreateAnswers.AnsweredExactly | apps/browser-extension/src/webauthnProxy.ts:1746-1785 | When all handlers have ended, answers and silent endings are together as many as the handlers that took the request on |
| CreateAnswers.AnsweredOnceExactly | apps/browser-extension/src/webauthnProxy.ts:2290-2305 | The request is answered or silenced at most once if and only if at most one handler took it on: the first unless it parked, or one that found the mirror parked; without a cancellation, answered at most once |
| CreateAnswers.OneCredential | apps/browser-extension/src/webauthnProxy.ts:1746-1785 | Of all answers at most one holds a credential |
| CreateAnswers.AnswersOnce | apps/browser-extension/src/webauthnProxy.ts:7162-7180 | No handler answers twice |
| CreateAnswers.NoneBeginsLater | apps/browser-extension/src/webauthnProxy.ts:2290-2305 | Once the mirror is no longer parked and every handler has gone on or ended, no further one begins |
| CreateRuns.AnsweredAgain | apps/browser-extension/src/webauthnProxy.ts:4264-4288 | After an error whose close was lost, a later prompt answers the request again, with a credential |
| CreateRuns.AnsweredTwice | apps/browser-extension/src/webauthnProxy.ts:1019-1095 | Two prompt messages handled before the first advance answer the request twice |
| CreateRuns.MirrorReopens | apps/browser-extension/src/webauthnProxy.ts:6147-6244 | The mirror's phase alone is not enough: a lagging handler can store the parked mirror again, and another begins |
| NativeBridge.SettledOnce | apps/browser-extension/src/nativeBridge.ts:320-499 | In every run each settled request was sent, is settled once, and is neither active nor queued any more |
| NativeBridge.PostedInSendOrder | apps/browser-extension/src/nativeBridge.ts:392-413 | In every run posted commands that cannot be overtaken, handshakes aside, are in the order they were sent |
| NativeAnswers.EventFaithfully | apps/browser-extension/src/nativeBridge.ts:415-499 | Every event keeps it that each resolved request was answered by a message naming it, whole or spelled by chunks that arrived in order on one port, and that the chunks held arrived on the port there is |
| NativeBridge.RunEvents | apps/browser-extension/src/nativeBridge.ts:262-627 | Any sequence of sends, preparations, messages, disconnects and timeouts, with connecting and posting failing at will, keeps every sent request in exactly one of active, queued or settled, and the line in order; unless prepared for a send that never came, nothing waits with nothing under way; and every resolved request was answered: a message that names it arrived, whole or as chunks in order on one port |
| NativeBridge.Step | apps/browser-extension/src/nativeBridge.ts:415-627 | Each event has exactly its stated effect on port, active request, queue, settled and posted requests, and none unsettles a request or unposts a command |
| NativeQueue.InsertionKeepsOrder | apps/browser-extension/src/nativeBridge.ts:392-413 | Inserting a request where its kind puts it lets it pass only what it may pass: a handshake everything, a startup command the overtakeable ones |
| NativeQueue.OrdinaryKeepSendOrder | apps/browser-extension/src/nativeBridge.ts:213-229 | In an ordered line, commands that cannot be overtaken keep their send order against all but handshakes |
| NativeQueue.InsertedExactly | apps/browser-extension/src/nativeBridge.ts:386-413 | A handshake without a port goes first, a startup command right after the last request that is neither preload nor overtakeable, every other request last |
| NativeQueue.PreloadsLeave | apps/browser-extension/src/nativeBridge.ts:374-384 | Exactly the preloads leave, from the last to the first, and the others keep their order |
| NativeBridge.Bridge.FindStartupIndex | apps/browser-extension/src/nativeBridge.ts:392-413 | The backward scan finds the place after the last request that may not be overtaken |
| NativeBridge.Bridge.EnqueueRequest | apps/browser-extension/src/nativeBridge.ts:392-413 | The new request is inserted, nothing else moves, and every request is still accounted for once |
| NativeBridge.Bridge.CancelQueuedPreloads | apps/browser-extension/src/nativeBridge.ts:374-390 | A startup command rejects exactly the queued preloads, the last one first, keeping the rest in order |
| NativeBridge.Bridge.InterruptActivePreload | apps/browser-extension/src/nativeBridge.ts:348-365 | The active preload is rejected, the port detached, the queue kept |
| NativeBridge.Bridge.PrepareForSend | apps/browser-extension/src/nativeBridge.ts:367-372 | Before a startup command exactly the preloads, queued and active, are canceled; otherwise nothing changes |
| NativeBridge.Bridge.RejectAll | apps/browser-extension/src/nativeBridge.ts:320-333 | The active request and then everything queued are rejected, once each and in this order |
| NativeBridge.Bridge.DetachPort | apps/browser-extension/src/nativeBridge.ts:335-346 | Detaching starts a new connection generation exactly when there was a port |
| NativeBridge.Bridge.EnsurePort | apps/browser-extension/src/nativeBridge.ts:532-546 | An attached port is kept; otherwise a new one starts a new generation, or connecting fails |
| NativeBridge.Bridge.FlushQueue | apps/browser-extension/src/nativeBridge.ts:548-604 | With nothing active, the first queued request is posted and becomes active; without a connection, or when the port does not take it, everything queued is rejected and the port dropped |
| NativeBridge.Bridge.Send | apps/browser-extension/src/nativeBridge.ts:611-627 | A startup command first cancels the preloads; the new request is put in its place, and taken up when nothing is under way |
| NativeBridge.Bridge.AcceptChunk | apps/browser-extension/src/nativeBridge.ts:421-477 | A chunk is accepted exactly when it is the next of its sequence, its count is 2 to 256, and the characters stay within 64 Mi; the last one gives the concatenation of all |
| NativeBridge.Bridge.OnNativeMessage | apps/browser-extension/src/nativeBridge.ts:415-499 | On the attached port with a request active: an answer naming it, outside a chunk sequence or assembled from chunks, resolves it with its payload and takes up the next; an accepted chunk settles nothing; any other answer, a malformed message or a wrong chunk rejects the active request, empties the queue and drops the port. Elsewhere nothing changes |
| NativeBridge.Bridge.ResolveActive | apps/browser-extension/src/nativeBridge.ts:490-499 | The active request is resolved with the payload, and the next one taken up |
| NativeBridge.Bridge.FailConnection | apps/browser-extension/src/nativeBridge.ts:501-530 | A failed or closed connection rejects the active request and everything queued, and drops the port; an old port's failure changes nothing |
| NativeBridge.Bridge.OnTimeout | apps/browser-extension/src/nativeBridge.ts:563-577 | A timer rejects its own active request, with everything queued, and drops the port; for any other request or port it changes nothing |
| CallGate.OneHolder | crates/vaultkern-uniffi/src/lib.rs:274-355 | In every interleaving at most one thread has the reservation, and the thread about to lock finds the mutex free |
| CallGate.WaiterHoldsNothing | crates/vaultkern-uniffi/src/lib.rs:280-311 | A thread that waits for the session holds nothing of it |
| CallGate.EndedAtMostOnce | crates/vaultkern-uniffi/src/lib.rs:1340-1374 | No passkey operation is ended twice; an ended one is neither deferred, abandoned by a panic, nor about to be closed again |
| CallGate.SleeperIsOwedAWakeup | crates/vaultkern-uniffi/src/lib.rs:293-355 | No wake-up is lost: while a sleeper is not notified, some thread has the reservation or is about to notify |
| CallGate.SomeThreadCanMove | crates/vaultkern-uniffi/src/lib.rs:280-355 | No deadlock: while any thread is inside, some thread can move without a spurious wake-up |
| CallGate.RunSchedule | crates/vaultkern-uniffi/src/lib.rs:274-355 | Every schedule of any number of threads keeps the gate's invariants |
| CallGate.SessionGate.EnterCall | crates/vaultkern-uniffi/src/lib.rs:281-291 | A thread already inside is refused at once; every other enters |
| CallGate.SessionGate.BeginClose | crates/vaultkern-uniffi/src/lib.rs:1351-1362 | Only the thread that finds the operation open goes on to close it; a refused drop defers it |
| CallGate.SessionGate.Reserve | crates/vaultkern-uniffi/src/lib.rs:293-311 | A reservation is granted exactly when no callback is active and none is held; with a callback active the call fails, otherwise it waits |
| CallGate.SessionGate.LockRuntime | crates/vaultkern-uniffi/src/lib.rs:1114-1130 | The mutex is free whenever it is locked; a poisoned one gives up the reservation |
| CallGate.SessionGate.DrainOnEntry | crates/vaultkern-uniffi/src/lib.rs:1114-1130 | Getting the session ends every deferred operation, in order |
| CallGate.SessionGate.HandleFailure | crates/vaultkern-uniffi/src/lib.rs:1365-1374 | A refused drop is deferred, unless the runtime is gone; any other refused close leaves the operation open |
| CallGate.SessionGate.EndOwnOperation | crates/vaultkern-uniffi/src/lib.rs:1351-1362 | The closing thread ends its own operation, once |
| CallGate.SessionGate.ReleaseMutex | crates/vaultkern-uniffi/src/lib.rs:1078-1111 | The mutex is freed after the final drain, and a panic poisons it; what is deferred in between is left to the next holder |
| CallGate.SessionGate.DropGuard | crates/vaultkern-uniffi/src/lib.rs:1078-1111 | Dropping the guard ends everything deferred meanwhile; a panic abandons the operation the thread came to close |
| CallGate.SessionGate.ReleaseReservation | crates/vaultkern-uniffi/src/lib.rs:323-355 | The reservation is cleared after the mutex is free |
| CallGate.SessionGate.NotifyWaiters | crates/vaultkern-uniffi/src/lib.rs:338-355 | Clearing the reservation notifies every sleeper |
| CallGate.SessionGate.ReleasePermit | crates/vaultkern-uniffi/src/lib.rs:1043-1069 | The thread's permit is given back last; a call that found the runtime poisoned then fails |
| IdOrder.SortIdsUnique | crates/vaultkern-model/src/three_way_patch.rs:672-700 | Sorting identifiers by position and then identifier has one result |
| TextOrder.SortTextsUnique | crates/vaultkern-model/src/canonical_serialization.rs:306-340 | Sorting texts has one result, so the written order does not depend on the visiting order |

## Left out

- ThreeWayPatch.ThreeWayFieldPatch: does not return the report counters or the flag that a merge differs from remote; they feed only the report.
- RecordMerge.MergeEntry: carries one field of each kind (title, username, password, tags, icons, attributes, attachments, both credentials, history, custom data, raw state); the other plain fields go through the same selection.
- RecordMerge.MergeScalars: carries the same representative plain fields.
- RecordMerge.MergeGroupTimes: carries the creation, modification and location times; the other stamps are merged like the creation time or the modification time.
- RecordMerge.MergeGroupFields: carries title, icon, times, custom data and fidelity; the other group fields go through the same selection.
- MetaMerge.MergedMetaIsExact: carries the name with its change time, the generator, custom data, icons, tombstones and fidelity fields; the other vault fields repeat them.
- VaultLoops.MergeMeta: carries the same representative vault fields.
- PatchTheorems.PatchErrors: says which inputs can cause each structural error; the exact condition for success, and for the cycle, is in `PatchSuccess`, and the error itself in `ReportedErrors.PatchReports`.
- GroupHierarchy.CycleNeedsBothSides: is one direction, stated on the inputs; moves on both sides need not build a cycle, and the exact condition on the merged parents is `PatchSuccess.CycleReportedExactly`.
- RebuildInverse.FlattenOfRebuild: compares groups up to fidelity slots, which rebuilding drops for children that left; what they become is in `GroupSlots.FlattenHoldsSlots`.
- ReportedErrors.PatchReports: of a cycle it names some group on it, and not which of them the walk meets first.
- PatchLaws.PatchOntoBase: compares identifiers, nesting and order; contents are in `PatchContents`, which leaves out what differs by design: times take the maximum, histories are united, fidelity follows the merge, and icons and tombstones come back sorted.
- Otpauth.ParseOtpauthLoop: accepts any bytes as its input, where the code only ever sees valid UTF-8; every cut is at an ASCII character, so decoded parts are judged alike.
- Attributes.MaterializeIsIdempotent: asks for a projected TOTP within the types of the code (UTF-8 text, 32-bit and 64-bit numbers), and nothing else.
- CreateFlow.HandleCreateRequest: WebAuthn option parsing, origin checks, prompts and session reads are calls that succeed, fail or cancel at will.
- CreateFlow.ServeRequest: promises order and agreement with the native record in every run, not that a request is answered once; that has the exact condition `CreateAnswers.AnsweredOnceExactly`, and runs that break it are in `CreateRuns`.
- CreateFlow.Reconcile: does not model a restart of the native runtime or the expiry of a ceremony, after which its record is gone and recovery registers it again; whether it would is an input.
- CreateSafety.DeliveryIsDurableExactly: speaks of the native record; undoing the registration in the vault itself, which can fail half-way and leave the record as it was, is not part of this model.
- NativeBridge.Bridge.OnNativeMessage: parsing of assembled chunks is an arbitrary function; emitted debug events are not modelled.
- NativeBridge.RunEvents: says nothing about when an event arrives, so it promises no response times.
- CallGate.RunSchedule: safety and freedom from deadlock, no fairness; callbacks come from the thread that holds the session, a change of the callback count and its notification are one step, panics occur only while a thread holds the session outside a callback and a drain, and the gates of other sessions are separate.
- Attachment contents are shared, hashed and wiped in the code; here an attachment is a value and its hash part of a reference.
- Zeroisation, redacted debug output and memory ownership.
- Unicode case folding and normalisation, and code generation from TOTP secrets.
- Cryptography, key derivation, file formats, the KDF parameter encoding and the web client's transport.
- The passkey assertion flow, the browser background script, content scripts and all user interface.
