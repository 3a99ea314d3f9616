/** The canonical entry encoding: what is written for each field, and when it cannot be written. */
module CanonicalForm {
  import opened Wrappers
  import opened TextOrder
  import opened Model

  const LIMIT_32: nat := 0x1_0000_0000
  const LIMIT_64: nat := 0x1_0000_0000_0000_0000

  type U32 = n: nat | n < LIMIT_32
  type U64 = n: nat | n < LIMIT_64
  type I32 = n: int | -0x8000_0000 <= n < 0x8000_0000
  type I64 = n: int | -0x8000_0000_0000_0000 <= n < 0x8000_0000_0000_0000

  datatype CanonicalError = ByteLengthOverflow(length: nat) | CollectionCountOverflow(count: nat)

  // ---- The projection that is encoded ----

  datatype AttachmentReference = AttachmentReference(protectInMemory: bool, contentId: Text)

  datatype Association = Association(window: Text, sequence: Text)

  datatype AutoType = AutoType(
    enabled: Option<bool>,
    obfuscation: Option<I32>,
    defaultSequence: Option<Text>,
    associations: seq<Association>)

  datatype DataItem = DataItem(value: Text, lastModified: Option<I64>)

  datatype Protection = Protection(title: bool, username: bool, password: bool, url: bool, notes: bool)

  datatype EntryReference = EntryReference(
    id: Text,
    title: Text, username: Text, password: Text, url: Text, notes: Text,
    protection: Protection,
    tags: set<Text>,
    attributes: map<Text, CustomField>,
    attachments: map<Text, AttachmentReference>,
    iconId: Option<U32>,
    customIconId: Option<Text>,
    foregroundColor: Option<Text>, backgroundColor: Option<Text>, overrideUrl: Option<Text>,
    createdAt: U64, modifiedAt: U64,
    expires: bool,
    expiryTime: Option<I64>,
    lastAccessedAt: Option<U64>, usageCount: Option<U64>, locationChangedAt: Option<U64>,
    previousParent: Option<Text>,
    autoType: Option<AutoType>,
    customData: map<Text, Text>,
    customDataItems: map<Text, DataItem>,
    excludeFromReports: bool)

  const ID_BYTES: nat := 16
  const CONTENT_ID_BYTES: nat := 32

  /** Identifiers and content hashes have their fixed widths. */
  predicate WellSized(e: EntryReference) {
    && |e.id| == ID_BYTES
    && (e.customIconId.Some? ==> |e.customIconId.value| == ID_BYTES)
    && (e.previousParent.Some? ==> |e.previousParent.value| == ID_BYTES)
    && (forall name | name in e.attachments :: |e.attachments[name].contentId| == CONTENT_ID_BYTES)
  }

  // ---- Numbers ----

  /** The low `k` bytes of `n`, least significant first. */
  function LittleEndian(n: nat, k: nat): (s: Text)
    ensures |s| == k
    decreases k
  {
    if k == 0 then [] else [(n % 256) as char] + LittleEndian(n / 256, k - 1)
  }

  function TwosComplement(n: int, limit: nat): nat
    requires n + limit >= 0
  {
    if n < 0 then n + limit else n
  }

  function Flag(b: bool): Text {
    [if b then 1 as char else 0 as char]
  }

  // ---- Texts, options, lists ----

  /** A length prefix and the bytes themselves. */
  function TextBytes(s: Text): Text {
    LittleEndian(|s|, 4) + s
  }

  predicate TextFits(s: Text) {
    |s| < LIMIT_32
  }

  function OptionBytes<T>(o: Option<T>, encode: T -> Text): Text {
    if o.Some? then [1 as char] + encode(o.value) else [0 as char]
  }

  function Each<T>(list: seq<T>, encode: T -> Text): Text {
    if list == [] then [] else encode(list[0]) + Each(list[1..], encode)
  }

  function ListBytes<T>(list: seq<T>, encode: T -> Text): Text {
    LittleEndian(|list|, 4) + Each(list, encode)
  }

  // ---- Sets and maps ----

  /** The encoded members of a set, in the order of their bytes. */
  function SortedMembers(tags: set<Text>): seq<Text> {
    SortTexts(set tag | tag in tags :: TextBytes(tag))
  }

  function SetBytes(tags: set<Text>): Text {
    LittleEndian(|tags|, 4) + Each(SortedMembers(tags), RawBytes)
  }

  /** A map's entries in the order of their keys' bytes. */
  function SortedEntries<V>(m: map<Text, V>): seq<(Text, V)> {
    var keys := SortTexts(m.Keys);
    assert forall k :: k in keys ==> k in Elements(keys);
    seq(|keys|, i requires 0 <= i < |keys| => (keys[i], m[keys[i]]))
  }

  function EntryBytes<V>(entry: (Text, V), encode: V -> Text): Text {
    TextBytes(entry.0) + encode(entry.1)
  }

  function EntryEncoder<V>(encode: V -> Text): ((Text, V)) -> Text {
    (entry: (Text, V)) => EntryBytes(entry, encode)
  }

  function MapBytes<V>(m: map<Text, V>, encode: V -> Text): Text {
    LittleEndian(|m|, 4) + Each(SortedEntries(m), EntryEncoder(encode))
  }

  predicate MapFits<V(!new)>(m: map<Text, V>, fits: V -> bool) {
    |m| < LIMIT_32 && forall key | key in m :: TextFits(key) && fits(m[key])
  }

  // ---- The values of each field ----

  function BoolBytes(b: bool): Text { Flag(b) }
  function U32Bytes(n: U32): Text { LittleEndian(n, 4) }
  function U64Bytes(n: U64): Text { LittleEndian(n, 8) }
  function I32Bytes(n: I32): Text { LittleEndian(TwosComplement(n, LIMIT_32), 4) }
  function I64Bytes(n: I64): Text { LittleEndian(TwosComplement(n, LIMIT_64), 8) }
  function RawBytes(s: Text): Text { s }

  function AttributeBytes(f: CustomField): Text {
    TextBytes(f.value) + Flag(f.isProtected)
  }

  predicate AttributeFits(f: CustomField) {
    TextFits(f.value)
  }

  function ReferenceBytes(r: AttachmentReference): Text {
    Flag(r.protectInMemory) + r.contentId
  }

  predicate ReferenceFits(r: AttachmentReference) {
    |r.contentId| == CONTENT_ID_BYTES
  }

  function DataItemBytes(item: DataItem): Text {
    TextBytes(item.value) + OptionBytes(item.lastModified, I64Bytes)
  }

  predicate DataItemFits(item: DataItem) {
    TextFits(item.value)
  }

  function AssociationBytes(a: Association): Text {
    TextBytes(a.window) + TextBytes(a.sequence)
  }

  predicate AssociationFits(a: Association) {
    TextFits(a.window) && TextFits(a.sequence)
  }

  function AutoTypeBytes(a: AutoType): Text {
    OptionBytes(a.enabled, BoolBytes)
    + (OptionBytes(a.obfuscation, I32Bytes)
    + (OptionBytes(a.defaultSequence, TextBytes)
    + ListBytes(a.associations, AssociationBytes)))
  }

  predicate AutoTypeFits(a: AutoType) {
    && (a.defaultSequence.Some? ==> TextFits(a.defaultSequence.value))
    && |a.associations| < LIMIT_32
    && forall i | 0 <= i < |a.associations| :: AssociationFits(a.associations[i])
  }

  // ---- The entry as a fixed sequence of fields ----

  datatype Field =
    | FixedField(bytes: Text, width: nat)
    | TextField(text: Text)
    | BoolField(flag: bool)
    | TagsField(tags: set<Text>)
    | AttributesField(attributes: map<Text, CustomField>)
    | AttachmentsField(attachments: map<Text, AttachmentReference>)
    | U32OptionField(icon: Option<U32>)
    | IdOptionField(id: Option<Text>)
    | TextOptionField(optionalText: Option<Text>)
    | U64Field(number: U64)
    | I64OptionField(signed: Option<I64>)
    | U64OptionField(unsigned: Option<U64>)
    | AutoTypeField(autoType: Option<AutoType>)
    | TextMapField(texts: map<Text, Text>)
    | ItemsField(items: map<Text, DataItem>)

  function FieldBytes(f: Field): Text {
    match f
    case FixedField(bytes, _) => bytes
    case TextField(s) => TextBytes(s)
    case BoolField(b) => Flag(b)
    case TagsField(tags) => SetBytes(tags)
    case AttributesField(m) => MapBytes(m, AttributeBytes)
    case AttachmentsField(m) => MapBytes(m, ReferenceBytes)
    case U32OptionField(o) => OptionBytes(o, U32Bytes)
    case IdOptionField(o) => OptionBytes(o, RawBytes)
    case TextOptionField(o) => OptionBytes(o, TextBytes)
    case U64Field(n) => U64Bytes(n)
    case I64OptionField(o) => OptionBytes(o, I64Bytes)
    case U64OptionField(o) => OptionBytes(o, U64Bytes)
    case AutoTypeField(o) => OptionBytes(o, AutoTypeBytes)
    case TextMapField(m) => MapBytes(m, TextBytes)
    case ItemsField(m) => MapBytes(m, DataItemBytes)
  }

  /** Every length and count in the field is below 2^32, and fixed widths are met. */
  predicate FieldFits(f: Field) {
    match f
    case FixedField(bytes, width) => |bytes| == width
    case TextField(s) => TextFits(s)
    case BoolField(_) => true
    case TagsField(tags) => |tags| < LIMIT_32 && forall tag | tag in tags :: TextFits(tag)
    case AttributesField(m) => MapFits(m, AttributeFits)
    case AttachmentsField(m) => MapFits(m, ReferenceFits)
    case U32OptionField(_) => true
    case IdOptionField(o) => o.Some? ==> |o.value| == ID_BYTES
    case TextOptionField(o) => o.Some? ==> TextFits(o.value)
    case U64Field(_) => true
    case I64OptionField(_) => true
    case U64OptionField(_) => true
    case AutoTypeField(o) => o.Some? ==> AutoTypeFits(o.value)
    case TextMapField(m) => MapFits(m, TextFits)
    case ItemsField(m) => MapFits(m, DataItemFits)
  }

  function NameFields(e: EntryReference): seq<Field> {
    [FixedField(e.id, ID_BYTES), TextField(e.title), TextField(e.username), TextField(e.password),
     TextField(e.url), TextField(e.notes)]
  }

  function ProtectionFields(e: EntryReference): seq<Field> {
    [BoolField(e.protection.title), BoolField(e.protection.username), BoolField(e.protection.password),
     BoolField(e.protection.url), BoolField(e.protection.notes)]
  }

  function CollectionFields(e: EntryReference): seq<Field> {
    [TagsField(e.tags), AttributesField(e.attributes), AttachmentsField(e.attachments)]
  }

  function LookFields(e: EntryReference): seq<Field> {
    [U32OptionField(e.iconId), IdOptionField(e.customIconId), TextOptionField(e.foregroundColor),
     TextOptionField(e.backgroundColor), TextOptionField(e.overrideUrl)]
  }

  function TimeFields(e: EntryReference): seq<Field> {
    [U64Field(e.createdAt), U64Field(e.modifiedAt), BoolField(e.expires), I64OptionField(e.expiryTime),
     U64OptionField(e.lastAccessedAt), U64OptionField(e.usageCount), U64OptionField(e.locationChangedAt),
     IdOptionField(e.previousParent)]
  }

  function LastFields(e: EntryReference): seq<Field> {
    [AutoTypeField(e.autoType), TextMapField(e.customData), ItemsField(e.customDataItems),
     BoolField(e.excludeFromReports)]
  }

  /** All fields in the order they are written. */
  function FieldsOf(e: EntryReference): seq<Field> {
    NameFields(e) + (ProtectionFields(e) + (CollectionFields(e) + (LookFields(e) + (TimeFields(e) + LastFields(e)))))
  }

  const MAGIC: Text := "VKCS"
  const VERSION: U32 := 1

  function Framing(): Text {
    MAGIC + U32Bytes(VERSION)
  }

  /** The canonical bytes of an entry all of whose lengths and counts fit. */
  function CanonicalBytes(e: EntryReference): Text {
    Framing() + Each(FieldsOf(e), FieldBytes)
  }

  /** Everything in the entry has an encodable length or count. */
  predicate Fits(e: EntryReference) {
    forall i | 0 <= i < |FieldsOf(e)| :: FieldFits(FieldsOf(e)[i])
  }
}
