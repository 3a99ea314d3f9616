/** Where every byte of a canonical encoding comes from, byte by byte. */
module CanonicalLayout {
  import opened Wrappers
  import opened TextOrder
  import opened Model
  import opened CanonicalForm
  import opened CanonicalInjective
  import opened CanonicalEncoder
  import opened CanonicalProjection
  import opened Attributes
  import CD = CustomData
  import Fates = CustomDataFates

  // ---- Numbers ----

  /** The four bytes of a number, the lowest first. */
  ghost function Byte4(n: nat): Text {
    [(n % 0x100) as char, (n / 0x100 % 0x100) as char, (n / 0x1_0000 % 0x100) as char, (n / 0x100_0000 % 0x100) as char]
  }

  ghost function Byte8(n: nat): Text {
    Byte4(n) + Byte4(n / 0x1_0000_0000)
  }

  lemma LittleStep(n: nat, k: nat)
    ensures LittleEndian(n, k + 1) == [(n % 0x100) as char] + LittleEndian(n / 0x100, k)
  {
  }

  lemma Little4(n: nat, k: nat)
    ensures LittleEndian(n, k + 4) == Byte4(n) + LittleEndian(n / 0x1_0000_0000, k)
  {
    hide LittleEndian;
    LittleStep(n, k + 3);
    LittleStep(n / 0x100, k + 2);
    LittleStep(n / 0x100 / 0x100, k + 1);
    LittleStep(n / 0x100 / 0x100 / 0x100, k);
    Quotients(n);
  }

  lemma Quotients(n: nat)
    ensures n / 0x100 / 0x100 == n / 0x1_0000 && n / 0x1_0000 / 0x100 == n / 0x100_0000
    ensures n / 0x100_0000 / 0x100 == n / 0x1_0000_0000
  {
  }

  lemma FourBytes(n: nat)
    ensures LittleEndian(n, 4) == Byte4(n)
  {
    Little4(n, 0);
  }

  lemma EightBytes(n: nat)
    ensures LittleEndian(n, 8) == Byte8(n)
  {
    Little4(n, 4);
    Little4(n / 0x1_0000_0000, 0);
  }

  // ---- Texts and options ----

  ghost function Prefixed(s: Text): Text {
    Byte4(|s|) + s
  }

  ghost function Bit(b: bool): Text {
    if b then [1 as char] else [0 as char]
  }

  ghost function Maybe(present: bool, code: Text): Text {
    if present then [1 as char] + code else [0 as char]
  }

  ghost function MaybeText(o: Option<Text>): Text {
    Maybe(o.Some?, Prefixed(o.GetOr([])))
  }

  ghost function MaybeRaw(o: Option<Text>): Text {
    Maybe(o.Some?, o.GetOr([]))
  }

  ghost function MaybeNumber(o: Option<U64>): Text {
    Maybe(o.Some?, Byte8(o.GetOr(0)))
  }

  /** A signed number is written as its remainder by 2^64. */
  ghost function MaybeSigned(o: Option<I64>): Text {
    Maybe(o.Some?, Byte8(o.GetOr(0) as int % 0x1_0000_0000_0000_0000))
  }

  lemma SameText(s: Text)
    ensures TextBytes(s) == Prefixed(s)
  {
    FourBytes(|s|);
  }

  lemma SameMaybeText(o: Option<Text>)
    ensures OptionBytes(o, TextBytes) == MaybeText(o)
  {
    SameText(o.GetOr([]));
  }

  lemma Remainder(n: int, limit: nat)
    requires limit > 0 && -(limit as int) <= n < limit
    ensures n % limit == if n < 0 then n + limit else n
  {
    if n < 0 {
      assert n == -1 * limit + (n + limit);
    }
  }

  lemma SameSigned(n: I64)
    ensures I64Bytes(n) == Byte8(n as int % 0x1_0000_0000_0000_0000)
  {
    hide Byte8;
    EightBytes(TwosComplement(n, LIMIT_64));
    Remainder(n, LIMIT_64);
  }

  lemma SameSigned32(n: I32)
    ensures I32Bytes(n) == Byte4(n as int % 0x1_0000_0000)
  {
    hide Byte4;
    FourBytes(TwosComplement(n, LIMIT_32));
    Remainder(n, LIMIT_32);
  }

  lemma SameOptions(t: Option<Text>, n: Option<U64>, i: Option<I64>)
    ensures OptionBytes(t, RawBytes) == MaybeRaw(t)
    ensures OptionBytes(n, U64Bytes) == MaybeNumber(n)
    ensures OptionBytes(i, I64Bytes) == MaybeSigned(i)
  {
    hide Byte8, I64Bytes;
    if n.Some? {
      EightBytes(n.value);
    }
    if i.Some? {
      SameSigned(i.value);
    }
  }

  // ---- Sets, maps and lists ----

  /** The first byte in which the texts differ is lower, or the one is a proper beginning of the other. */
  ghost predicate Before(a: Text, b: Text) {
    exists k :: 0 <= k <= |a| && k < |b| && a[..k] == b[..k] && (k == |a| || a[k] < b[k])
  }

  lemma {:induction false} LessExactly(a: Text, b: Text)
    ensures Less(a, b) <==> Before(a, b)
  {
    if b != [] {
      if a == [] {
        assert a[..0] == b[..0];
      } else if a[0] != b[0] {
        assert a[..0] == b[..0];
        assert forall k :: 0 < k <= |a| && k < |b| ==> a[..k][0] != b[..k][0];
      } else {
        LessExactly(a[1..], b[1..]);
        BeforeRest(a, b);
      }
    }
  }

  lemma BeforeRest(a: Text, b: Text)
    requires a != [] && b != [] && a[0] == b[0]
    ensures Before(a, b) <==> Before(a[1..], b[1..])
  {
    if Before(a, b) {
      BeforeWithout(a, b);
    }
    if Before(a[1..], b[1..]) {
      BeforeWith(a, b);
    }
  }

  lemma BeforeWithout(a: Text, b: Text)
    requires a != [] && b != [] && a[0] == b[0] && Before(a, b)
    ensures Before(a[1..], b[1..])
  {
    var k :| 0 <= k <= |a| && k < |b| && a[..k] == b[..k] && (k == |a| || a[k] < b[k]);
    assert a[1..][..k - 1] == a[..k][1..] && b[1..][..k - 1] == b[..k][1..];
  }

  lemma BeforeWith(a: Text, b: Text)
    requires a != [] && b != [] && a[0] == b[0] && Before(a[1..], b[1..])
    ensures Before(a, b)
  {
    var k :| 0 <= k <= |a[1..]| && k < |b[1..]| && a[1..][..k] == b[1..][..k] && (k == |a[1..]| || a[1..][k] < b[1..][k]);
    assert a[..k + 1] == [a[0]] + a[1..][..k] && b[..k + 1] == [b[0]] + b[1..][..k];
  }

  /** Every member once, in the order of bytes. */
  ghost predicate Listing(list: seq<Text>, members: set<Text>) {
    && |list| == |members| && (forall x :: x in list <==> x in members)
    && forall i, j :: 0 <= i < j < |list| ==> Before(list[i], list[j])
  }

  lemma SortedIsListing(s: set<Text>)
    ensures Listing(SortTexts(s), s)
  {
    hide Less, Before, SortTexts;
    var list := SortTexts(s);
    assert forall x :: x in list <==> x in Elements(list);
    forall i, j | 0 <= i < j < |list| ensures Before(list[i], list[j]) {
      LessExactly(list[i], list[j]);
    }
  }

  ghost function Joined(codes: seq<Text>): Text {
    if codes == [] then [] else codes[0] + Joined(codes[1..])
  }

  /** A set: how many, then its members' codes in the order of bytes. */
  ghost predicate WritesSet(part: Text, tags: set<Text>) {
    exists codes: seq<Text> :: Listing(codes, set tag | tag in tags :: Prefixed(tag)) && part == Byte4(|tags|) + Joined(codes)
  }

  ghost predicate Codes<V>(codes: seq<Text>, keys: seq<Text>, m: map<Text, V>, code: V -> Text) {
    && |codes| == |keys|
    && forall i :: 0 <= i < |keys| ==> keys[i] in m && codes[i] == Prefixed(keys[i]) + code(m[keys[i]])
  }

  /** A map: how many, then each key and value, in the order of the keys' bytes. */
  ghost predicate WritesMap<V>(part: Text, m: map<Text, V>, code: V -> Text) {
    exists keys: seq<Text>, codes: seq<Text> ::
      Listing(keys, m.Keys) && Codes(codes, keys, m, code) && part == Byte4(|m|) + Joined(codes)
  }

  lemma {:induction false} EachJoined<T>(list: seq<T>, encode: T -> Text, codes: seq<Text>)
    requires |codes| == |list| && forall i :: 0 <= i < |list| ==> codes[i] == encode(list[i])
    ensures Each(list, encode) == Joined(codes)
  {
    if list != [] {
      EachJoined(list[1..], encode, codes[1..]);
    }
  }

  lemma SameSet(tags: set<Text>)
    ensures WritesSet(SetBytes(tags), tags)
  {
    hide Before, Byte4, SortTexts;
    var codes := SortedMembers(tags);
    forall tag: Text ensures TextBytes(tag) == Prefixed(tag) {
      SameText(tag);
    }
    assert (set tag | tag in tags :: TextBytes(tag)) == (set tag | tag in tags :: Prefixed(tag));
    SortedIsListing(set tag | tag in tags :: Prefixed(tag));
    EachJoined(codes, RawBytes, codes);
    FourBytes(|tags|);
  }

  lemma SameMap<V>(m: map<Text, V>, encode: V -> Text, code: V -> Text)
    requires forall v :: encode(v) == code(v)
    ensures WritesMap(MapBytes(m, encode), m, code)
  {
    hide Before, Byte4, SortTexts, Listing, Codes;
    var keys, entries := SortTexts(m.Keys), SortedEntries(m);
    SortedIsListing(m.Keys);
    var codes := seq(|keys|, i requires 0 <= i < |keys| => EntryBytes(entries[i], encode));
    EntriesCoded(m, encode, code, keys, codes);
    EachJoined(entries, EntryEncoder(encode), codes);
    FourBytes(|m|);
  }

  lemma EntriesCoded<V>(m: map<Text, V>, encode: V -> Text, code: V -> Text, keys: seq<Text>, codes: seq<Text>)
    requires forall v :: encode(v) == code(v)
    requires keys == SortTexts(m.Keys) && |codes| == |keys|
    requires forall i :: 0 <= i < |keys| ==> codes[i] == EntryBytes(SortedEntries(m)[i], encode)
    ensures Codes(codes, keys, m, code)
  {
    hide Before, Byte4, SortTexts, Listing;
    forall i | 0 <= i < |keys| ensures keys[i] in m && codes[i] == Prefixed(keys[i]) + code(m[keys[i]]) {
      SameText(keys[i]);
      assert keys[i] in Elements(keys);
    }
  }

  // ---- Values ----

  ghost function AttributeCode(f: CustomField): Text {
    Prefixed(f.value) + Bit(f.isProtected)
  }

  ghost function ReferenceCode(r: AttachmentReference): Text {
    Bit(r.protectInMemory) + r.contentId
  }

  ghost function ItemCode(item: DataItem): Text {
    Prefixed(item.value) + MaybeSigned(item.lastModified)
  }

  ghost function AssociationCode(a: Association): Text {
    Prefixed(a.window) + Prefixed(a.sequence)
  }

  ghost predicate WritesAutoType(part: Text, o: Option<AutoType>) {
    if o.None? then part == [0 as char]
    else
      var a := o.value;
      exists codes: seq<Text> ::
        && |codes| == |a.associations|
        && (forall i :: 0 <= i < |codes| ==> codes[i] == AssociationCode(a.associations[i]))
        && part == [1 as char] + Maybe(a.enabled.Some?, Bit(a.enabled.GetOr(false)))
                   + Maybe(a.obfuscation.Some?, Byte4(a.obfuscation.GetOr(0) as int % 0x1_0000_0000))
                   + MaybeText(a.defaultSequence) + Byte4(|codes|) + Joined(codes)
  }

  lemma SameValues(f: CustomField, r: AttachmentReference, item: DataItem, a: Association)
    ensures AttributeBytes(f) == AttributeCode(f) && ReferenceBytes(r) == ReferenceCode(r)
    ensures DataItemBytes(item) == ItemCode(item) && AssociationBytes(a) == AssociationCode(a)
  {
    SameText(f.value);
    SameText(item.value);
    SameText(a.window);
    SameText(a.sequence);
    SameOptions(None, None, item.lastModified);
  }

  lemma SameAutoType(o: Option<AutoType>)
    ensures WritesAutoType(OptionBytes(o, AutoTypeBytes), o)
  {
    hide Byte4, Byte8, LittleEndian;
    if o.Some? {
      var a := o.value;
      var codes := seq(|a.associations|, i requires 0 <= i < |a.associations| => AssociationCode(a.associations[i]));
      forall i | 0 <= i < |codes| ensures codes[i] == AssociationBytes(a.associations[i]) {
        SameText(a.associations[i].window);
        SameText(a.associations[i].sequence);
      }
      EachJoined(a.associations, AssociationBytes, codes);
      FourBytes(|codes|);
      SameMaybeText(a.defaultSequence);
      SameSigned32(a.obfuscation.GetOr(0));
      AutoTypeParts(a, codes);
    }
  }

  lemma AutoTypeParts(a: AutoType, codes: seq<Text>)
    requires OptionBytes(a.defaultSequence, TextBytes) == MaybeText(a.defaultSequence)
    requires I32Bytes(a.obfuscation.GetOr(0)) == Byte4(a.obfuscation.GetOr(0) as int % 0x1_0000_0000)
    requires ListBytes(a.associations, AssociationBytes) == Byte4(|codes|) + Joined(codes)
    ensures [1 as char] + AutoTypeBytes(a) ==
      [1 as char] + Maybe(a.enabled.Some?, Bit(a.enabled.GetOr(false)))
      + Maybe(a.obfuscation.Some?, Byte4(a.obfuscation.GetOr(0) as int % 0x1_0000_0000))
      + MaybeText(a.defaultSequence) + Byte4(|codes|) + Joined(codes)
  {
    assert OptionBytes(a.enabled, BoolBytes) == Maybe(a.enabled.Some?, Bit(a.enabled.GetOr(false)));
    assert OptionBytes(a.obfuscation, I32Bytes) ==
      Maybe(a.obfuscation.Some?, Byte4(a.obfuscation.GetOr(0) as int % 0x1_0000_0000));
    hide *;
    FiveParts([1 as char], OptionBytes(a.enabled, BoolBytes), OptionBytes(a.obfuscation, I32Bytes),
              OptionBytes(a.defaultSequence, TextBytes), Byte4(|codes|), Joined(codes));
    AutoTypeNested(a);
  }

  lemma AutoTypeNested(a: AutoType)
    ensures AutoTypeBytes(a) ==
      OptionBytes(a.enabled, BoolBytes) + (OptionBytes(a.obfuscation, I32Bytes)
      + (OptionBytes(a.defaultSequence, TextBytes) + ListBytes(a.associations, AssociationBytes)))
  {
  }

  lemma FiveParts(p: Text, a: Text, b: Text, c: Text, d: Text, e: Text)
    ensures p + (a + (b + (c + (d + e)))) == p + a + b + c + d + e
  {
    Regroup(p, a, b + (c + (d + e)));
    Regroup(p + a, b, c + (d + e));
    Regroup(p + a + b, c, d + e);
    Regroup(p + a + b + c, d, e);
  }

  // ---- The entry ----

  ghost function NamesCode(e: EntryReference): Text {
    e.id + Prefixed(e.title) + Prefixed(e.username) + Prefixed(e.password) + Prefixed(e.url) + Prefixed(e.notes)
  }

  ghost function ProtectionCode(e: EntryReference): Text {
    Bit(e.protection.title) + Bit(e.protection.username) + Bit(e.protection.password)
    + Bit(e.protection.url) + Bit(e.protection.notes)
  }

  ghost function LooksCode(e: EntryReference): Text {
    Maybe(e.iconId.Some?, Byte4(e.iconId.GetOr(0))) + MaybeRaw(e.customIconId)
    + MaybeText(e.foregroundColor) + MaybeText(e.backgroundColor) + MaybeText(e.overrideUrl)
  }

  ghost function TimesCode(e: EntryReference): Text {
    Byte8(e.createdAt) + Byte8(e.modifiedAt) + Bit(e.expires) + MaybeSigned(e.expiryTime)
    + MaybeNumber(e.lastAccessedAt) + MaybeNumber(e.usageCount) + MaybeNumber(e.locationChangedAt)
    + MaybeRaw(e.previousParent)
  }

  /** The written form of the collections, in their order. */
  datatype Collections = Collections(
    tags: Text, attributes: Text, attachments: Text, autoType: Text, customData: Text, items: Text)

  ghost predicate WritesCollections(c: Collections, e: EntryReference) {
    && WritesSet(c.tags, e.tags)
    && WritesMap(c.attributes, e.attributes, AttributeCode)
    && WritesMap(c.attachments, e.attachments, ReferenceCode)
    && WritesAutoType(c.autoType, e.autoType)
    && WritesMap(c.customData, e.customData, Prefixed)
    && WritesMap(c.items, e.customDataItems, ItemCode)
  }

  /** "VKCS", the version 1, and every field in its place. */
  ghost predicate LaidOut(bytes: Text, e: EntryReference) {
    exists c: Collections :: WritesCollections(c, e) &&
      bytes == "VKCS" + [1 as char, 0 as char, 0 as char, 0 as char]
               + NamesCode(e) + ProtectionCode(e) + c.tags + c.attributes + c.attachments + LooksCode(e) + TimesCode(e)
               + c.autoType + c.customData + c.items + Bit(e.excludeFromReports)
  }

  ghost function Written(e: EntryReference): Collections {
    Collections(SetBytes(e.tags), MapBytes(e.attributes, AttributeBytes), MapBytes(e.attachments, ReferenceBytes),
                OptionBytes(e.autoType, AutoTypeBytes), MapBytes(e.customData, TextBytes),
                MapBytes(e.customDataItems, DataItemBytes))
  }

  lemma CollectionsWritten(e: EntryReference)
    ensures WritesCollections(Written(e), e)
  {
    hide WritesSet, WritesMap, WritesAutoType, AttributeCode, ReferenceCode, ItemCode, Prefixed,
         AttributeBytes, ReferenceBytes, DataItemBytes, TextBytes;
    SameSet(e.tags);
    forall f: CustomField ensures AttributeBytes(f) == AttributeCode(f) {
      SameValues(f, AttachmentReference(false, []), DataItem([], None), Association([], []));
    }
    SameMap(e.attributes, AttributeBytes, AttributeCode);
    forall r: AttachmentReference ensures ReferenceBytes(r) == ReferenceCode(r) {
      SameValues(CustomField([], false), r, DataItem([], None), Association([], []));
    }
    SameMap(e.attachments, ReferenceBytes, ReferenceCode);
    SameAutoType(e.autoType);
    forall t: Text ensures TextBytes(t) == Prefixed(t) {
      SameText(t);
    }
    SameMap(e.customData, TextBytes, Prefixed);
    forall item: DataItem ensures DataItemBytes(item) == ItemCode(item) {
      SameValues(CustomField([], false), AttachmentReference(false, []), item, Association([], []));
    }
    SameMap(e.customDataItems, DataItemBytes, ItemCode);
  }

  /** The fields so far, and one more. */
  lemma OneMore(fields: seq<Field>, k: nat)
    requires k < |fields|
    ensures Each(fields[..k + 1], FieldBytes) == Each(fields[..k], FieldBytes) + FieldBytes(fields[k])
  {
    EachPush(fields[..k], fields[k], FieldBytes);
    assert fields[..k + 1] == fields[..k] + [fields[k]];
  }

  ghost function InRow(fields: seq<Field>, k: nat): Text
    requires 0 < k <= |fields|
  {
    if k == 1 then FieldBytes(fields[0]) else InRow(fields, k - 1) + FieldBytes(fields[k - 1])
  }

  lemma {:induction false} EachInRow(fields: seq<Field>, k: nat)
    requires 0 < k <= |fields|
    ensures Each(fields[..k], FieldBytes) == InRow(fields, k)
  {
    OneMore(fields, k - 1);
    if k == 1 {
      assert fields[..0] == [] && Each([], FieldBytes) == [];
      assert [] + FieldBytes(fields[0]) == FieldBytes(fields[0]);
    } else {
      EachInRow(fields, k - 1);
    }
  }

  lemma RowOf(fields: seq<Field>)
    requires fields != []
    ensures Each(fields, FieldBytes) == InRow(fields, |fields|)
  {
    EachInRow(fields, |fields|);
    assert fields[..|fields|] == fields;
  }

  lemma RowStep(fields: seq<Field>, k: nat)
    requires 0 < k < |fields|
    ensures InRow(fields, k + 1) == InRow(fields, k) + FieldBytes(fields[k])
    ensures InRow(fields, 1) == FieldBytes(fields[0])
  {
  }

  lemma Rows(fields: seq<Field>)
    requires fields != []
    ensures Each(fields, FieldBytes) == InRow(fields, |fields|) && InRow(fields, 1) == FieldBytes(fields[0])
    ensures forall k :: 0 < k < |fields| ==> InRow(fields, k + 1) == InRow(fields, k) + FieldBytes(fields[k])
  {
    RowOf(fields);
    forall k | 0 < k < |fields| ensures InRow(fields, k + 1) == InRow(fields, k) + FieldBytes(fields[k]) {
      RowStep(fields, k);
    }
  }

  lemma SameNames(e: EntryReference)
    ensures Each(NameFields(e), FieldBytes) == NamesCode(e)
  {
    hide Prefixed, TextBytes, Each;
    var fields := NameFields(e);
    Rows(fields);
    hide InRow;
    SameText(e.title);
    SameText(e.username);
    SameText(e.password);
    SameText(e.url);
    SameText(e.notes);
    assert InRow(fields, 2) == InRow(fields, 1) + FieldBytes(fields[1]);
    assert InRow(fields, 3) == InRow(fields, 2) + FieldBytes(fields[2]);
    assert InRow(fields, 4) == InRow(fields, 3) + FieldBytes(fields[3]);
    assert InRow(fields, 5) == InRow(fields, 4) + FieldBytes(fields[4]);
    assert InRow(fields, 6) == InRow(fields, 5) + FieldBytes(fields[5]);
  }

  lemma SameProtection(e: EntryReference)
    ensures Each(ProtectionFields(e), FieldBytes) == ProtectionCode(e)
  {
    hide Each;
    var fields := ProtectionFields(e);
    Rows(fields);
    hide InRow;
    assert InRow(fields, 2) == InRow(fields, 1) + FieldBytes(fields[1]);
    assert InRow(fields, 3) == InRow(fields, 2) + FieldBytes(fields[2]);
    assert InRow(fields, 4) == InRow(fields, 3) + FieldBytes(fields[3]);
    assert InRow(fields, 5) == InRow(fields, 4) + FieldBytes(fields[4]);
  }

  lemma SameLooks(e: EntryReference)
    ensures Each(LookFields(e), FieldBytes) == LooksCode(e)
  {
    hide Each, MaybeText, MaybeRaw, Byte4, LittleEndian;
    var fields := LookFields(e);
    Rows(fields);
    hide InRow;
    FourBytes(e.iconId.GetOr(0));
    SameOptions(e.customIconId, None, None);
    SameMaybeText(e.foregroundColor);
    SameMaybeText(e.backgroundColor);
    SameMaybeText(e.overrideUrl);
    assert FieldBytes(fields[0]) == Maybe(e.iconId.Some?, Byte4(e.iconId.GetOr(0)));
    assert InRow(fields, 2) == InRow(fields, 1) + FieldBytes(fields[1]);
    assert InRow(fields, 3) == InRow(fields, 2) + FieldBytes(fields[2]);
    assert InRow(fields, 4) == InRow(fields, 3) + FieldBytes(fields[3]);
    assert InRow(fields, 5) == InRow(fields, 4) + FieldBytes(fields[4]);
  }

  lemma SameTimes(e: EntryReference)
    ensures Each(TimeFields(e), FieldBytes) == TimesCode(e)
  {
    hide Each, MaybeSigned, MaybeNumber, MaybeRaw, Byte8, OptionBytes, LittleEndian;
    var fields := TimeFields(e);
    Rows(fields);
    hide InRow;
    EightBytes(e.createdAt);
    EightBytes(e.modifiedAt);
    SameOptions(e.previousParent, e.lastAccessedAt, e.expiryTime);
    SameOptions(None, e.usageCount, None);
    SameOptions(None, e.locationChangedAt, None);
    assert InRow(fields, 2) == InRow(fields, 1) + FieldBytes(fields[1]);
    assert InRow(fields, 3) == InRow(fields, 2) + FieldBytes(fields[2]);
    assert InRow(fields, 4) == InRow(fields, 3) + FieldBytes(fields[3]);
    assert InRow(fields, 5) == InRow(fields, 4) + FieldBytes(fields[4]);
    assert InRow(fields, 6) == InRow(fields, 5) + FieldBytes(fields[5]);
    assert InRow(fields, 7) == InRow(fields, 6) + FieldBytes(fields[6]);
    assert InRow(fields, 8) == InRow(fields, 7) + FieldBytes(fields[7]);
  }

  lemma SameCollections(e: EntryReference)
    ensures var c := Written(e);
      && Each(CollectionFields(e), FieldBytes) == c.tags + c.attributes + c.attachments
      && Each(LastFields(e), FieldBytes) == c.autoType + c.customData + c.items + Bit(e.excludeFromReports)
  {
    hide Each, SetBytes, MapBytes, OptionBytes;
    Rows(CollectionFields(e));
    Rows(LastFields(e));
    hide InRow;
    assert InRow(CollectionFields(e), 2) == InRow(CollectionFields(e), 1) + FieldBytes(CollectionFields(e)[1]);
    assert InRow(CollectionFields(e), 3) == InRow(CollectionFields(e), 2) + FieldBytes(CollectionFields(e)[2]);
    assert InRow(LastFields(e), 2) == InRow(LastFields(e), 1) + FieldBytes(LastFields(e)[1]);
    assert InRow(LastFields(e), 3) == InRow(LastFields(e), 2) + FieldBytes(LastFields(e)[2]);
    assert InRow(LastFields(e), 4) == InRow(LastFields(e), 3) + FieldBytes(LastFields(e)[3]);
  }

  lemma FieldsInGroups(e: EntryReference)
    ensures Each(FieldsOf(e), FieldBytes) ==
      Each(NameFields(e), FieldBytes) + (Each(ProtectionFields(e), FieldBytes) + (Each(CollectionFields(e), FieldBytes)
      + (Each(LookFields(e), FieldBytes) + (Each(TimeFields(e), FieldBytes) + Each(LastFields(e), FieldBytes)))))
  {
    hide Each, NameFields, ProtectionFields, CollectionFields, LookFields, TimeFields, LastFields;
    var n, p, c, l, t, o := NameFields(e), ProtectionFields(e), CollectionFields(e), LookFields(e), TimeFields(e), LastFields(e);
    EachAppend(n, p + (c + (l + (t + o))), FieldBytes);
    EachAppend(p, c + (l + (t + o)), FieldBytes);
    EachAppend(c, l + (t + o), FieldBytes);
    EachAppend(l, t + o, FieldBytes);
    EachAppend(t, o, FieldBytes);
  }

  lemma FramingBytes()
    ensures Framing() == "VKCS" + [1 as char, 0 as char, 0 as char, 0 as char]
  {
    hide LittleEndian;
    FourBytes(1);
    assert Byte4(1) == [1 as char, 0 as char, 0 as char, 0 as char];
  }

  lemma PartsInRow(f: Text, n: Text, p: Text, t: Text, a: Text, r: Text, l: Text, s: Text, u: Text, d: Text, i: Text, x: Text)
    ensures f + (n + (p + (t + a + r + (l + (s + (u + d + i + x)))))) == f + n + p + t + a + r + l + s + u + d + i + x
  {
    var last := u + d + i + x;
    FiveParts(f, n, p, t + a + r, l, s + last);
    Regroup(f + n + p + (t + a + r) + l, s, last);
    Regroup(f + n + p, t + a, r);
    Regroup(f + n + p, t, a);
    var first := f + n + p + t + a + r + l + s;
    Regroup(first, u + d + i, x);
    Regroup(first, u + d, i);
    Regroup(first, u, d);
  }

  /** The encoding of any entry that fits, in full. */
  lemma LayoutExactly(e: EntryReference)
    ensures LaidOut(CanonicalBytes(e), e)
  {
    hide Each, NamesCode, ProtectionCode, LooksCode, TimesCode, Bit, SetBytes, MapBytes, OptionBytes, WritesCollections;
    var c := Written(e);
    CollectionsWritten(e);
    SameNames(e);
    SameProtection(e);
    SameLooks(e);
    SameTimes(e);
    SameCollections(e);
    FieldsInGroups(e);
    FramingBytes();
    PartsInRow(Framing(), NamesCode(e), ProtectionCode(e), c.tags, c.attributes, c.attachments, LooksCode(e), TimesCode(e),
               c.autoType, c.customData, c.items, Bit(e.excludeFromReports));
  }

  /** What is encoded of a vault entry: its fields, the attributes of its view, and the last custom data item of each key. */
  ghost predicate Shows(r: EntryReference, e: Entry, s: Surroundings) {
    && r.id == s.idBytes(e.id) && r.title == e.title && r.username == e.username && r.password == e.password
    && r.url == s.url && r.notes == s.notes && r.protection == s.protection && r.tags == e.tags
    && r.attributes == Materialize(e).fields && ShowsAttachments(r.attachments, e, s)
    && SameOptional(r.iconId, e.iconId)
    && (if e.customIconId.Some? then r.customIconId == Some(s.idBytes(e.customIconId.value)) else r.customIconId == None)
    && r.foregroundColor == s.foregroundColor && r.backgroundColor == s.backgroundColor && r.overrideUrl == s.overrideUrl
    && r.createdAt == s.createdAt && r.modifiedAt as nat == e.modifiedAt && r.expires == s.expires && r.expiryTime == s.expiryTime
    && r.lastAccessedAt == s.lastAccessedAt && r.usageCount == s.usageCount
    && SameOptional(r.locationChangedAt, e.locationChangedAt)
    && r.previousParent == s.previousParent && r.autoType == s.autoType && r.customData == e.customData
    && (forall key :: ShowsItem(r.customDataItems, e, key)) && r.excludeFromReports == s.excludeFromReports
  }

  ghost predicate SameOptional(a: Option<nat>, b: Option<nat>) {
    a == b
  }

  ghost predicate ShowsAttachments(m: map<Text, AttachmentReference>, e: Entry, s: Surroundings) {
    && (forall name :: name in m <==> name in e.attachments)
    && forall name :: name in m ==>
        m[name] == AttachmentReference(e.attachments[name].protectInMemory, s.contentId(e.attachments[name].content))
  }

  ghost predicate ShowsItem(items: map<Text, DataItem>, e: Entry, key: Text) {
    match Fates.LastOf(CD.AllItems(e.customDataBlocks), key)
    case None => key !in items
    case Some(item) => key in items && items[key].value == item.value && SameStamp(items[key].lastModified, item.lastModified)
  }

  ghost predicate SameStamp(a: Option<I64>, b: Option<int>) {
    a.Some? == b.Some? && (a.Some? ==> a.value as int == b.value)
  }

  /** The bytes of a vault entry, in full. */
  lemma EntryLayout(e: Entry, s: Surroundings)
    requires InRange(e)
    ensures Shows(Project(e, s), e, s) && LaidOut(CanonicalBytes(Project(e, s)), Project(e, s))
  {
    hide LaidOut, CanonicalBytes, Materialize;
    LayoutExactly(Project(e, s));
    forall key ensures ShowsItem(DataItems(e), e, key) {
      Fates.BlocksRead(e.customDataBlocks, key);
    }
  }

  // ---- What fits ----

  ghost predicate Short(s: Text) {
    |s| < 0x1_0000_0000
  }

  ghost predicate ShortOption(o: Option<Text>) {
    o.Some? ==> Short(o.value)
  }

  ghost predicate WideOption(o: Option<Text>) {
    o.Some? ==> |o.value| == 16
  }

  ghost predicate ShortKeys<V>(m: map<Text, V>) {
    |m| < 0x1_0000_0000 && forall key :: key in m ==> Short(key)
  }

  ghost predicate ShortAutoType(a: AutoType) {
    && ShortOption(a.defaultSequence) && |a.associations| < 0x1_0000_0000
    && forall i :: 0 <= i < |a.associations| ==> Short(a.associations[i].window) && Short(a.associations[i].sequence)
  }

  /** Identifiers have 16 bytes and content hashes 32; every text, and every collection, has less than 2^32 bytes or members. */
  ghost predicate Encodable(e: EntryReference) {
    && |e.id| == 16 && WideOption(e.customIconId) && WideOption(e.previousParent)
    && Short(e.title) && Short(e.username) && Short(e.password) && Short(e.url) && Short(e.notes)
    && |e.tags| < 0x1_0000_0000 && (forall tag :: tag in e.tags ==> Short(tag))
    && ShortKeys(e.attributes) && (forall key :: key in e.attributes ==> Short(e.attributes[key].value))
    && ShortKeys(e.attachments) && (forall key :: key in e.attachments ==> |e.attachments[key].contentId| == 32)
    && ShortOption(e.foregroundColor) && ShortOption(e.backgroundColor) && ShortOption(e.overrideUrl)
    && (e.autoType.Some? ==> ShortAutoType(e.autoType.value))
    && ShortKeys(e.customData) && (forall key :: key in e.customData ==> Short(e.customData[key]))
    && ShortKeys(e.customDataItems) && (forall key :: key in e.customDataItems ==> Short(e.customDataItems[key].value))
  }

  ghost predicate AllFit(list: seq<Field>) {
    forall f :: f in list ==> FieldFits(f)
  }

  lemma AllFitJoin(p: seq<Field>, q: seq<Field>)
    ensures AllFit(p + q) <==> AllFit(p) && AllFit(q)
  {
  }

  lemma FitsInGroups(e: EntryReference)
    ensures Fits(e) <==> AllFit(NameFields(e)) && AllFit(ProtectionFields(e)) && AllFit(CollectionFields(e))
                         && AllFit(LookFields(e)) && AllFit(TimeFields(e)) && AllFit(LastFields(e))
  {
    hide NameFields, ProtectionFields, CollectionFields, LookFields, TimeFields, LastFields, FieldFits;
    var n, p, c, l, t, o := NameFields(e), ProtectionFields(e), CollectionFields(e), LookFields(e), TimeFields(e), LastFields(e);
    AllFitJoin(n, p + (c + (l + (t + o))));
    AllFitJoin(p, c + (l + (t + o)));
    AllFitJoin(c, l + (t + o));
    AllFitJoin(l, t + o);
    AllFitJoin(t, o);
    assert Fits(e) <==> AllFit(FieldsOf(e));
  }

  /** The entries that encode. */
  lemma FitsExactly(e: EntryReference)
    ensures Fits(e) <==> Encodable(e)
  {
    hide Fits, AllFit, Short, ShortOption, WideOption, ShortKeys, ShortAutoType;
    FitsInGroups(e);
    TextsFit(e);
    MapsFit(e);
    LastFit(e);
  }

  /** Membership by position. */
  lemma ListFits(list: seq<Field>)
    ensures AllFit(list) <==> forall i :: 0 <= i < |list| ==> FieldFits(list[i])
  {
    hide FieldFits;
    forall i | 0 <= i < |list| ensures list[i] in list {
    }
  }

  lemma NamesFit(e: EntryReference)
    ensures AllFit(NameFields(e)) <==>
      |e.id| == 16 && Short(e.title) && Short(e.username) && Short(e.password) && Short(e.url) && Short(e.notes)
    ensures AllFit(ProtectionFields(e))
  {
    ListFits(NameFields(e));
    ListFits(ProtectionFields(e));
    hide AllFit;
    var n := NameFields(e);
    assert AllFit(n) <==> FieldFits(n[0]) && FieldFits(n[1]) && FieldFits(n[2]) && FieldFits(n[3]) && FieldFits(n[4]) && FieldFits(n[5]);
  }

  lemma LooksFit(e: EntryReference)
    ensures AllFit(LookFields(e)) <==>
      && WideOption(e.customIconId)
      && ShortOption(e.foregroundColor) && ShortOption(e.backgroundColor) && ShortOption(e.overrideUrl)
    ensures AllFit(TimeFields(e)) <==> WideOption(e.previousParent)
  {
    ListFits(LookFields(e));
    ListFits(TimeFields(e));
    hide AllFit;
    var l, t := LookFields(e), TimeFields(e);
    assert AllFit(l) <==> FieldFits(l[0]) && FieldFits(l[1]) && FieldFits(l[2]) && FieldFits(l[3]) && FieldFits(l[4]);
    assert AllFit(t) <==> FieldFits(t[7]);
  }

  lemma TextsFit(e: EntryReference)
    ensures AllFit(NameFields(e)) && AllFit(LookFields(e)) && AllFit(TimeFields(e)) && AllFit(ProtectionFields(e)) <==>
      && |e.id| == 16 && WideOption(e.customIconId) && WideOption(e.previousParent)
      && Short(e.title) && Short(e.username) && Short(e.password) && Short(e.url) && Short(e.notes)
      && ShortOption(e.foregroundColor) && ShortOption(e.backgroundColor) && ShortOption(e.overrideUrl)
  {
    hide AllFit, Short, ShortOption, WideOption;
    NamesFit(e);
    LooksFit(e);
  }

  lemma MapsFit(e: EntryReference)
    ensures AllFit(CollectionFields(e)) <==>
      && |e.tags| < 0x1_0000_0000 && (forall tag :: tag in e.tags ==> Short(tag))
      && ShortKeys(e.attributes) && (forall key :: key in e.attributes ==> Short(e.attributes[key].value))
      && ShortKeys(e.attachments) && (forall key :: key in e.attachments ==> |e.attachments[key].contentId| == 32)
  {
    ListFits(CollectionFields(e));
    hide AllFit;
    var c := CollectionFields(e);
    assert AllFit(c) <==> FieldFits(c[0]) && FieldFits(c[1]) && FieldFits(c[2]);
  }

  lemma LastFit(e: EntryReference)
    ensures AllFit(LastFields(e)) <==>
      && (e.autoType.Some? ==> ShortAutoType(e.autoType.value))
      && ShortKeys(e.customData) && (forall key :: key in e.customData ==> Short(e.customData[key]))
      && ShortKeys(e.customDataItems) && (forall key :: key in e.customDataItems ==> Short(e.customDataItems[key].value))
  {
    ListFits(LastFields(e));
    hide AllFit;
    var o := LastFields(e);
    assert AllFit(o) <==> FieldFits(o[0]) && FieldFits(o[1]) && FieldFits(o[2]) && FieldFits(o[3]);
  }
}
