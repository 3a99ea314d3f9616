/** The vault data model: the parts of each record that the modelled operations touch. */
module Model {
  import opened Wrappers
  import opened IdOrder
  import opened TextOrder
  import opened FidelitySlots
  import CustomData

  datatype CustomField = CustomField(value: Text, isProtected: bool)

  datatype Attachment = Attachment(name: Text, content: seq<Byte>, protectInMemory: bool)

  datatype TotpAlgorithm = Sha1 | Sha256 | Sha512

  datatype TotpSpec = TotpSpec(
    secretBase32: Text,
    algorithm: TotpAlgorithm,
    digits: nat,
    periodSeconds: nat,
    issuer: Option<Text>,
    accountName: Option<Text>)

  datatype PasskeyRecord = PasskeyRecord(
    username: Text,
    credentialId: Text,
    generatedUserId: Option<Text>,
    privateKeyPem: Text,
    relyingParty: Text,
    userHandle: Option<Text>,
    backupEligible: bool,
    backupState: bool)

  datatype EntryRawState = EntryRawState(
    nodeOrder: seq<Text>,
    stringOrder: seq<Text>,
    binaryOrder: seq<Text>,
    hasHistoryNode: bool)

  datatype Entry = Entry(
    id: Uuid,
    title: Text,
    username: Text,
    password: Text,
    tags: set<Text>,
    attributes: map<Text, CustomField>,
    attachments: map<Text, Attachment>,
    history: seq<Entry>,
    totp: Option<TotpSpec>,
    passkey: Option<PasskeyRecord>,
    iconId: Option<nat>,
    customIconId: Option<Uuid>,
    modifiedAt: nat,
    locationChangedAt: Option<nat>,
    customData: map<Text, Text>,
    customDataBlocks: seq<CustomData.Block>,
    rawState: EntryRawState,
    opaqueXml: seq<OpaqueXmlFragment>)

  datatype GroupTimes = GroupTimes(createdAt: nat, modifiedAt: nat, locationChangedAt: Option<nat>)

  datatype GroupRawState = GroupRawState(nodeOrder: seq<Text>, entryOrder: seq<Uuid>, groupOrder: seq<Uuid>)

  datatype Group = Group(
    id: Uuid,
    title: Text,
    iconId: Option<nat>,
    customIconId: Option<Uuid>,
    times: Option<GroupTimes>,
    customData: map<Text, Text>,
    customDataBlocks: seq<CustomData.Block>,
    rawState: GroupRawState,
    opaqueXml: seq<OpaqueXmlFragment>,
    entries: seq<Entry>,
    children: seq<Group>)

  datatype DeletedObject = DeletedObject(id: Uuid, deletedAt: int)

  datatype CustomIcon = CustomIcon(id: Uuid, data: seq<Byte>, name: Option<Text>, lastModified: Option<int>)

  datatype Vault = Vault(
    root: Group,
    generator: Option<Text>,
    name: Text,
    nameChanged: Option<int>,
    settingsChanged: Option<int>,
    metaCustomData: map<Text, Text>,
    metaCustomDataBlocks: seq<CustomData.Block>,
    metaNodeOrder: seq<Text>,
    metaOpaqueXml: seq<OpaqueXmlFragment>,
    rootOpaqueXml: seq<OpaqueXmlFragment>,
    deletedObjects: seq<DeletedObject>,
    customIcons: seq<CustomIcon>)

  // ---- Errors of the three-way patch ----

  datatype Version = BaseSide | LocalSide | RemoteSide

  datatype ObjectKind = MetaObject | RootObject | EntryObject | GroupObject

  datatype FidelityField = OpaqueXmlField | CustomDataField | ModeledField | CustomIconField

  datatype PatchError =
    | RootLineageMismatch
    | DuplicateEntry(side: Version, id: Uuid)
    | DuplicateGroup(side: Version, id: Uuid)
    | DuplicateCustomIcon(side: Version, id: Uuid)
    | DuplicateDeletedObject(side: Version, id: Uuid)
    | ConcurrentObjectAddition(id: Uuid)
    | MissingParent(id: Uuid)
    | GroupCycle(id: Uuid)
    | FidelityConflict(kind: ObjectKind, objectId: Option<Uuid>, field: FidelityField)
    | SiblingOrderChange(parent: Uuid, kind: ObjectKind)
}
