/** The encoder that appends each field to one byte buffer. */
module CanonicalEncoder {
  import opened Wrappers
  import opened TextOrder
  import opened Model
  import opened CanonicalForm
  import opened CanonicalInjective
  import opened CanonicalChecks

  // ---- Writing one thing after another ----

  lemma {:induction false} EachAppend<T>(p: seq<T>, q: seq<T>, encode: T -> Text)
    ensures Each(p + q, encode) == Each(p, encode) + Each(q, encode)
  {
    if p == [] {
      assert p + q == q;
    } else {
      assert (p + q)[1..] == p[1..] + q;
      EachAppend(p[1..], q, encode);
    }
  }

  lemma EachPush<T>(p: seq<T>, x: T, encode: T -> Text)
    ensures Each(p + [x], encode) == Each(p, encode) + encode(x)
  {
    EachAppend(p, [x], encode);
    assert [x][1..] == [];
    assert Each([x], encode) == encode(x) + Each([], encode);
    assert encode(x) + [] == encode(x);
  }

  lemma EachStep<T>(before: Text, list: seq<T>, i: nat, encode: T -> Text)
    requires i < |list|
    ensures (before + Each(list[..i], encode)) + encode(list[i]) == before + Each(list[..i + 1], encode)
  {
    EachPush(list[..i], list[i], encode);
    assert list[..i + 1] == list[..i] + [list[i]];
    Regroup(before, Each(list[..i], encode), encode(list[i]));
  }

  /** What one write leaves behind: exactly the expected status, and the code appended unless it overflowed. */
  ghost predicate Wrote(before: Text, after: Text, status: Status, expected: Status, code: Text) {
    status == expected && (status.Written? ==> after == before + code)
  }

  ghost predicate WroteFields(before: Text, after: Text, status: Status, list: seq<Field>) {
    Wrote(before, after, status, CheckFields(list), Each(list, FieldBytes))
  }

  /** The first `k` fields of a list are written and none of them overflowed. */
  ghost predicate Progress(start: Text, now: Text, list: seq<Field>, k: nat) {
    && k <= |list|
    && now == start + Each(list[..k], FieldBytes)
    && CheckFields(list) == CheckFields(list[k..])
  }

  lemma NothingWritten(start: Text, list: seq<Field>)
    ensures Progress(start, start, list, 0)
  {
    assert list[0..] == list;
  }

  lemma AllWritten(start: Text, now: Text, list: seq<Field>)
    requires Progress(start, now, list, |list|)
    ensures WroteFields(start, now, Written, list)
  {
    assert list[..|list|] == list;
  }

  lemma {:induction false} ChecksAppend(p: seq<Field>, q: seq<Field>)
    ensures CheckFields(p + q) == Then(CheckFields(p), CheckFields(q))
  {
    hide CheckField;
    if p == [] {
      assert p + q == q;
    } else {
      assert (p + q)[1..] == p[1..] + q;
      ChecksAppend(p[1..], q);
    }
  }

  /** Writing one list of fields after another writes both. */
  lemma WroteBoth(a: Text, b: Text, c: Text, status: Status, p: seq<Field>, q: seq<Field>)
    requires WroteFields(a, b, Written, p) && WroteFields(b, c, status, q)
    ensures WroteFields(a, c, status, p + q)
  {
    hide CheckFields, FieldBytes, Each;
    EachAppend(p, q, FieldBytes);
    ChecksAppend(p, q);
    Regroup(a, Each(p, FieldBytes), Each(q, FieldBytes));
  }

  lemma TimesListed(e: EntryReference)
    ensures var list := TimeFields(e);
      && |list| == 8
      && list[0] == U64Field(e.createdAt) && list[1] == U64Field(e.modifiedAt) && list[2] == BoolField(e.expires)
      && list[3] == I64OptionField(e.expiryTime) && list[4] == U64OptionField(e.lastAccessedAt)
      && list[5] == U64OptionField(e.usageCount) && list[6] == U64OptionField(e.locationChangedAt)
      && list[7] == IdOptionField(e.previousParent)
  {
  }

  lemma EachCheckStep(list: seq<Value>, i: nat)
    requires i < |list|
    ensures CheckEach(list[i..]) == Then(CheckValue(list[i]), CheckEach(list[i + 1..]))
  {
    hide CheckValue;
    assert list[i..][1..] == list[i + 1..];
  }

  lemma EntryCheckStep(entries: seq<(Text, Value)>, i: nat)
    requires i < |entries|
    ensures CheckEntries(entries[i..])
         == Then(Then(CheckText(entries[i].0), CheckValue(entries[i].1)), CheckEntries(entries[i + 1..]))
  {
    hide CheckValue;
    assert entries[i..][1..] == entries[i + 1..];
  }

  class Encoder {
    var bytes: Text

    constructor ()
      ensures bytes == []
    {
      bytes := [];
    }

    constructor WithFraming()
      ensures bytes == Framing()
    {
      bytes := MAGIC + U32Bytes(VERSION);
    }

    method WriteRaw(value: Text)
      modifies this
      ensures bytes == old(bytes) + value
    {
      bytes := bytes + value;
    }

    method WriteByteLength(length: nat) returns (status: Status)
      modifies this
      ensures Wrote(old(bytes), bytes, status, CheckLength(length), LittleEndian(length, 4))
    {
      status := CheckLength(length);
      if status.Written? {
        WriteRaw(LittleEndian(length, 4));
      }
    }

    method WriteCount(count: nat) returns (status: Status)
      modifies this
      ensures Wrote(old(bytes), bytes, status, CheckCount(count), LittleEndian(count, 4))
    {
      status := CheckCount(count);
      if status.Written? {
        WriteRaw(LittleEndian(count, 4));
      }
    }

    method WriteText(value: Text) returns (status: Status)
      modifies this
      ensures Wrote(old(bytes), bytes, status, CheckText(value), TextBytes(value))
    {
      status := WriteByteLength(|value|);
      if status.Written? {
        WriteRaw(value);
      }
    }

    /** An option whose value has a fixed width. */
    method WriteFixedOption(code: Option<Text>)
      modifies this
      ensures bytes == old(bytes) + OptionBytes(code, RawBytes)
    {
      if code.Some? {
        WriteRaw([1 as char]);
        WriteRaw(code.value);
        Regroup(old(bytes), [1 as char], code.value);
      } else {
        WriteRaw([0 as char]);
      }
    }

    method WriteTextOption(value: Option<Text>) returns (status: Status)
      modifies this
      ensures Wrote(old(bytes), bytes, status, CheckTextOption(value), OptionBytes(value, TextBytes))
    {
      hide TextBytes;
      if value.Some? {
        WriteRaw([1 as char]);
        status := WriteText(value.value);
        Regroup(old(bytes), [1 as char], TextBytes(value.value));
      } else {
        WriteRaw([0 as char]);
        status := Written;
      }
    }

    /** Writes one value of a list or map. */
    method WriteValue(v: Value) returns (status: Status)
      modifies this
      ensures Wrote(old(bytes), bytes, status, CheckValue(v), ValueBytes(v))
    {
      hide TextBytes, CheckText;
      match v
      case TextValue(s) => status := WriteText(s);
      case AttributeValue(f) =>
        status := WriteText(f.value);
        if status.Written? {
          WriteRaw(Flag(f.isProtected));
          Regroup(old(bytes), TextBytes(f.value), Flag(f.isProtected));
        }
      case ReferenceValue(r) =>
        WriteRaw(Flag(r.protectInMemory));
        WriteRaw(r.contentId);
        Regroup(old(bytes), Flag(r.protectInMemory), r.contentId);
        status := Written;
      case ItemValue(item) =>
        status := WriteText(item.value);
        if status.Written? {
          var stamp := if item.lastModified.Some? then Some(I64Bytes(item.lastModified.value)) else None;
          WriteFixedOption(stamp);
          Regroup(old(bytes), TextBytes(item.value), OptionBytes(stamp, RawBytes));
        }
      case AssociationValue(a) =>
        status := WriteText(a.window);
        if status.Written? {
          status := WriteText(a.sequence);
          Regroup(old(bytes), TextBytes(a.window), TextBytes(a.sequence));
        }
    }

    method WriteEach(list: seq<Value>) returns (status: Status)
      modifies this
      ensures Wrote(old(bytes), bytes, status, CheckEach(list), Each(list, ValueBytes))
    {
      assert bytes + Each(list[..0], ValueBytes) == bytes && list[0..] == list;
      hide ValueBytes, CheckValue;
      for i := 0 to |list|
        invariant bytes == old(bytes) + Each(list[..i], ValueBytes)
        invariant CheckEach(list[i..]) == CheckEach(list)
      {
        EachCheckStep(list, i);
        status := WriteValue(list[i]);
        if status.Overflowed? {
          return;
        }
        EachStep(old(bytes), list, i, ValueBytes);
      }
      assert list[..|list|] == list;
      return Written;
    }

    method WriteList(list: seq<Value>) returns (status: Status)
      modifies this
      ensures Wrote(old(bytes), bytes, status, CheckList(list), ListBytes(list, ValueBytes))
    {
      hide ValueBytes, CheckEach, Each;
      status := WriteCount(|list|);
      if status.Written? {
        status := WriteEach(list);
        Regroup(old(bytes), LittleEndian(|list|, 4), Each(list, ValueBytes));
      }
    }

    method WriteAll(codes: seq<Text>)
      modifies this
      ensures bytes == old(bytes) + Each(codes, RawBytes)
    {
      assert bytes + [] == bytes;
      for i := 0 to |codes|
        invariant bytes == old(bytes) + Each(codes[..i], RawBytes)
      {
        EachStep(old(bytes), codes, i, RawBytes);
        WriteRaw(codes[i]);
      }
      assert codes[..|codes|] == codes;
    }

    /** Writes a set: every member is encoded on its own, and the codes are sorted and appended. */
    method WriteSet(tags: set<Text>) returns (status: Status)
      modifies this
      ensures Wrote(old(bytes), bytes, status, CheckField(TagsField(tags)), SetBytes(tags))
    {
      hide Each, CheckEach, Members, CheckText;
      status := WriteCount(|tags|);
      if status.Overflowed? {
        return;
      }
      var codes: set<Text>;
      codes, status := CollectCodes(tags);
      if status.Written? {
        WriteAll(SortTexts(codes));
        Regroup(old(bytes), LittleEndian(|tags|, 4), Each(SortTexts(codes), RawBytes));
      }
    }

    /** Writes keys and values in the given order. */
    method WriteEntries(entries: seq<(Text, Value)>) returns (status: Status)
      modifies this
      ensures Wrote(old(bytes), bytes, status, CheckEntries(entries), Each(entries, EntryEncoder(ValueBytes)))
    {
      var encode := EntryEncoder(ValueBytes);
      assert bytes + Each(entries[..0], encode) == bytes && entries[0..] == entries;
      hide CheckValue, ValueBytes;
      for i := 0 to |entries|
        invariant bytes == old(bytes) + Each(entries[..i], encode)
        invariant CheckEntries(entries[i..]) == CheckEntries(entries)
      {
        EntryCheckStep(entries, i);
        status := WriteEntry(entries[i].0, entries[i].1);
        if status.Overflowed? {
          return;
        }
        EachStep(old(bytes), entries, i, encode);
      }
      assert entries[..|entries|] == entries;
      return Written;
    }

    method WriteEntry(key: Text, value: Value) returns (status: Status)
      modifies this
      ensures Wrote(old(bytes), bytes, status, Then(CheckText(key), CheckValue(value)), EntryBytes((key, value), ValueBytes))
    {
      hide ValueBytes, CheckValue, TextBytes;
      status := WriteText(key);
      if status.Written? {
        status := WriteValue(value);
        Regroup(old(bytes), TextBytes(key), ValueBytes(value));
      }
    }

    /** Writes a map in the order of its keys' bytes. */
    method WriteMap(m: map<Text, Value>) returns (status: Status)
      modifies this
      ensures Wrote(old(bytes), bytes, status, CheckMap(m), MapBytes(m, ValueBytes))
    {
      hide Each, CheckEntries, SortedEntries;
      status := WriteCount(|m|);
      if status.Written? {
        status := WriteEntries(SortedEntries(m));
        Regroup(old(bytes), LittleEndian(|m|, 4), Each(SortedEntries(m), EntryEncoder(ValueBytes)));
      }
    }

    method WriteAutoType(a: AutoType) returns (status: Status)
      modifies this
      ensures Wrote(old(bytes), bytes, status, CheckAutoType(a), AutoTypeBytes(a))
    {
      hide TextBytes, CheckList, ListBytes, Associations, Flag, I32Bytes;
      var enabled := if a.enabled.Some? then Some(BoolBytes(a.enabled.value)) else None;
      var obfuscation := if a.obfuscation.Some? then Some(I32Bytes(a.obfuscation.value)) else None;
      WriteFixedOption(enabled);
      WriteFixedOption(obfuscation);
      ghost var numbers := OptionBytes(enabled, RawBytes) + OptionBytes(obfuscation, RawBytes);
      Regroup(old(bytes), OptionBytes(enabled, RawBytes), OptionBytes(obfuscation, RawBytes));
      ghost var middle := bytes;
      status := WriteTextOption(a.defaultSequence);
      if status.Written? {
        ListSame(a.associations);
        status := WriteList(Associations(a.associations));
        Regroup(middle, OptionBytes(a.defaultSequence, TextBytes), ListBytes(a.associations, AssociationBytes));
        ghost var rest := OptionBytes(a.defaultSequence, TextBytes) + ListBytes(a.associations, AssociationBytes);
        Regroup(old(bytes), numbers, rest);
        Regroup(OptionBytes(enabled, RawBytes), OptionBytes(obfuscation, RawBytes), rest);
      }
    }

    method WriteAutoTypeOption(value: Option<AutoType>) returns (status: Status)
      modifies this
      ensures Wrote(old(bytes), bytes, status, CheckField(AutoTypeField(value)), OptionBytes(value, AutoTypeBytes))
    {
      hide AutoTypeBytes, CheckAutoType;
      if value.Some? {
        WriteRaw([1 as char]);
        status := WriteAutoType(value.value);
        Regroup(old(bytes), [1 as char], AutoTypeBytes(value.value));
      } else {
        WriteRaw([0 as char]);
        status := Written;
      }
    }

    /** Writes one field; fixed widths are the caller's. */
    method WriteField(f: Field) returns (status: Status)
      requires Sized(f)
      modifies this
      ensures Wrote(old(bytes), bytes, status, CheckField(f), FieldBytes(f))
    {
      hide SetBytes, MapBytes, TextBytes, CheckMap, CheckEach, Members, CheckText, CheckAutoType, AutoTypeBytes,
           LittleEndian;
      MapFieldsSame(f);
      status := Written;
      match f
      case FixedField(value, _) => WriteRaw(value);
      case TextField(value) => status := WriteText(value);
      case BoolField(value) => WriteRaw(Flag(value));
      case TagsField(tags) => status := WriteSet(tags);
      case AttributesField(m) => status := WriteMap(Attributes(m));
      case AttachmentsField(m) => status := WriteMap(References(m));
      case U32OptionField(o) => WriteFixedOption(if o.Some? then Some(U32Bytes(o.value)) else None);
      case IdOptionField(o) => WriteFixedOption(o);
      case TextOptionField(o) => status := WriteTextOption(o);
      case U64Field(n) => WriteRaw(U64Bytes(n));
      case I64OptionField(o) => WriteFixedOption(if o.Some? then Some(I64Bytes(o.value)) else None);
      case U64OptionField(o) => WriteFixedOption(if o.Some? then Some(U64Bytes(o.value)) else None);
      case AutoTypeField(o) => status := WriteAutoTypeOption(o);
      case TextMapField(m) => status := WriteMap(Texts(m));
      case ItemsField(m) => status := WriteMap(Items(m));
    }

    /** Writes the k-th field of a list whose earlier fields are written. */
    method WriteNext(f: Field, ghost start: Text, ghost list: seq<Field>, ghost k: nat) returns (status: Status)
      requires k < |list| && f == list[k] && Sized(f)
      requires Progress(start, bytes, list, k)
      modifies this
      ensures status.Written? ==> Progress(start, bytes, list, k + 1)
      ensures status.Overflowed? ==> WroteFields(start, bytes, status, list)
    {
      hide FieldBytes, CheckField, Each, Sized;
      status := WriteField(f);
      EachStep(start, list, k, FieldBytes);
      assert list[k..][0] == f && list[k..][1..] == list[k + 1..];
    }

    method WriteNames(e: EntryReference) returns (status: Status)
      requires WellSized(e)
      modifies this
      ensures WroteFields(old(bytes), bytes, status, NameFields(e))
    {
      hide Progress, WroteFields, CheckFields, FieldBytes, Each;
      ghost var start, list := bytes, NameFields(e);
      NothingWritten(start, list);
      :- WriteNext(FixedField(e.id, ID_BYTES), start, list, 0);
      :- WriteNext(TextField(e.title), start, list, 1);
      :- WriteNext(TextField(e.username), start, list, 2);
      :- WriteNext(TextField(e.password), start, list, 3);
      :- WriteNext(TextField(e.url), start, list, 4);
      :- WriteNext(TextField(e.notes), start, list, 5);
      AllWritten(start, bytes, list);
      return Written;
    }

    method WriteProtection(e: EntryReference) returns (status: Status)
      modifies this
      ensures WroteFields(old(bytes), bytes, status, ProtectionFields(e))
    {
      hide Progress, WroteFields, CheckFields, FieldBytes, Each;
      ghost var start, list := bytes, ProtectionFields(e);
      NothingWritten(start, list);
      :- WriteNext(BoolField(e.protection.title), start, list, 0);
      :- WriteNext(BoolField(e.protection.username), start, list, 1);
      :- WriteNext(BoolField(e.protection.password), start, list, 2);
      :- WriteNext(BoolField(e.protection.url), start, list, 3);
      :- WriteNext(BoolField(e.protection.notes), start, list, 4);
      AllWritten(start, bytes, list);
      return Written;
    }

    method WriteCollections(e: EntryReference) returns (status: Status)
      requires WellSized(e)
      modifies this
      ensures WroteFields(old(bytes), bytes, status, CollectionFields(e))
    {
      hide Progress, WroteFields, CheckFields, FieldBytes, Each;
      ghost var start, list := bytes, CollectionFields(e);
      NothingWritten(start, list);
      :- WriteNext(TagsField(e.tags), start, list, 0);
      :- WriteNext(AttributesField(e.attributes), start, list, 1);
      :- WriteNext(AttachmentsField(e.attachments), start, list, 2);
      AllWritten(start, bytes, list);
      return Written;
    }

    method WriteLooks(e: EntryReference) returns (status: Status)
      requires WellSized(e)
      modifies this
      ensures WroteFields(old(bytes), bytes, status, LookFields(e))
    {
      hide Progress, WroteFields, CheckFields, FieldBytes, Each;
      ghost var start, list := bytes, LookFields(e);
      NothingWritten(start, list);
      :- WriteNext(U32OptionField(e.iconId), start, list, 0);
      :- WriteNext(IdOptionField(e.customIconId), start, list, 1);
      :- WriteNext(TextOptionField(e.foregroundColor), start, list, 2);
      :- WriteNext(TextOptionField(e.backgroundColor), start, list, 3);
      :- WriteNext(TextOptionField(e.overrideUrl), start, list, 4);
      AllWritten(start, bytes, list);
      return Written;
    }

    method WriteTimes(e: EntryReference) returns (status: Status)
      requires WellSized(e)
      modifies this
      ensures WroteFields(old(bytes), bytes, status, TimeFields(e))
    {
      hide Progress, WroteFields, CheckFields, FieldBytes, Each;
      TimesListed(e);
      hide TimeFields;
      ghost var start, list := bytes, TimeFields(e);
      NothingWritten(start, list);
      :- WriteNext(U64Field(e.createdAt), start, list, 0);
      :- WriteNext(U64Field(e.modifiedAt), start, list, 1);
      :- WriteNext(BoolField(e.expires), start, list, 2);
      :- WriteNext(I64OptionField(e.expiryTime), start, list, 3);
      :- WriteNext(U64OptionField(e.lastAccessedAt), start, list, 4);
      :- WriteNext(U64OptionField(e.usageCount), start, list, 5);
      :- WriteNext(U64OptionField(e.locationChangedAt), start, list, 6);
      :- WriteNext(IdOptionField(e.previousParent), start, list, 7);
      AllWritten(start, bytes, list);
      return Written;
    }

    method WriteLast(e: EntryReference) returns (status: Status)
      modifies this
      ensures WroteFields(old(bytes), bytes, status, LastFields(e))
    {
      hide Progress, WroteFields, CheckFields, FieldBytes, Each;
      ghost var start, list := bytes, LastFields(e);
      NothingWritten(start, list);
      :- WriteNext(AutoTypeField(e.autoType), start, list, 0);
      :- WriteNext(TextMapField(e.customData), start, list, 1);
      :- WriteNext(ItemsField(e.customDataItems), start, list, 2);
      :- WriteNext(BoolField(e.excludeFromReports), start, list, 3);
      AllWritten(start, bytes, list);
      return Written;
    }
  }

  /** The codes of a set's members, visited in ascending order. */
  method CollectCodes(tags: set<Text>) returns (codes: set<Text>, status: Status)
    ensures status == CheckEach(Members(tags))
    ensures status.Written? ==> codes == set tag | tag in tags :: TextBytes(tag)
  {
    hide TextBytes, CheckText, Increasing;
    var sorted, list := SortTexts(tags), Members(tags);
    codes := {};
    assert list[0..] == list;
    for i := 0 to |sorted|
      invariant codes == set tag | tag in Elements(sorted[..i]) :: TextBytes(tag)
      invariant CheckEach(list[i..]) == CheckEach(list)
    {
      EachCheckStep(list, i);
      var member := new Encoder();
      status := member.WriteText(sorted[i]);
      if status.Overflowed? {
        return;
      }
      assert [] + TextBytes(sorted[i]) == TextBytes(sorted[i]);
      assert sorted[..i + 1] == sorted[..i] + [sorted[i]];
      assert Elements(sorted[..i + 1]) == Elements(sorted[..i]) + {sorted[i]};
      codes := codes + {member.bytes};
    }
    assert sorted[..|sorted|] == sorted;
    status := Written;
  }

  /** `done` are the first fields of the entry. */
  ghost predicate Leading(done: seq<Field>, e: EntryReference) {
    done <= FieldsOf(e)
  }

  /** When some leading field overflows, the entry does, with the same error. */
  lemma StaysOverflowed(e: EntryReference, before: Text, after: Text, status: Status, done: seq<Field>)
    requires Leading(done, e) && status.Overflowed? && WroteFields(before, after, status, done)
    ensures WroteFields(before, after, status, FieldsOf(e))
  {
    hide FieldsOf, CheckFields, FieldBytes;
    var rest := FieldsOf(e)[|done|..];
    assert FieldsOf(e) == done + rest;
    ChecksAppend(done, rest);
  }

  lemma LeadingParts(e: EntryReference)
    ensures var n := NameFields(e);
      && Leading(n, e) && Leading(n + ProtectionFields(e), e)
      && Leading(n + ProtectionFields(e) + CollectionFields(e), e)
      && Leading(n + ProtectionFields(e) + CollectionFields(e) + LookFields(e), e)
      && Leading(n + ProtectionFields(e) + CollectionFields(e) + LookFields(e) + TimeFields(e), e)
      && n + ProtectionFields(e) + CollectionFields(e) + LookFields(e) + TimeFields(e) + LastFields(e) == FieldsOf(e)
  {
    hide NameFields, ProtectionFields, CollectionFields, LookFields, TimeFields, LastFields;
    var n, p, c, l, t, z := NameFields(e), ProtectionFields(e), CollectionFields(e), LookFields(e), TimeFields(e), LastFields(e);
    assert n + p + c + l + t + z == FieldsOf(e);
    assert n <= n + p <= n + p + c <= n + p + c + l <= n + p + c + l + t <= n + p + c + l + t + z;
  }

  method WriteParts(encoder: Encoder, e: EntryReference) returns (status: Status)
    requires WellSized(e)
    modifies encoder
    ensures WroteFields(old(encoder.bytes), encoder.bytes, status, FieldsOf(e))
  {
    hide WroteFields, NameFields, ProtectionFields, CollectionFields, LookFields, TimeFields, LastFields, FieldsOf, Leading;
    LeadingParts(e);
    ghost var start, middle, done := encoder.bytes, encoder.bytes, NameFields(e);
    status := encoder.WriteNames(e);
    if status.Overflowed? {
      StaysOverflowed(e, start, encoder.bytes, status, done);
      return;
    }
    middle := encoder.bytes;
    status := encoder.WriteProtection(e);
    WroteBoth(start, middle, encoder.bytes, status, done, ProtectionFields(e));
    done := done + ProtectionFields(e);
    if status.Overflowed? {
      StaysOverflowed(e, start, encoder.bytes, status, done);
      return;
    }
    middle := encoder.bytes;
    status := encoder.WriteCollections(e);
    WroteBoth(start, middle, encoder.bytes, status, done, CollectionFields(e));
    done := done + CollectionFields(e);
    if status.Overflowed? {
      StaysOverflowed(e, start, encoder.bytes, status, done);
      return;
    }
    middle := encoder.bytes;
    status := encoder.WriteLooks(e);
    WroteBoth(start, middle, encoder.bytes, status, done, LookFields(e));
    done := done + LookFields(e);
    if status.Overflowed? {
      StaysOverflowed(e, start, encoder.bytes, status, done);
      return;
    }
    middle := encoder.bytes;
    status := encoder.WriteTimes(e);
    WroteBoth(start, middle, encoder.bytes, status, done, TimeFields(e));
    done := done + TimeFields(e);
    if status.Overflowed? {
      StaysOverflowed(e, start, encoder.bytes, status, done);
      return;
    }
    middle := encoder.bytes;
    status := encoder.WriteLast(e);
    WroteBoth(start, middle, encoder.bytes, status, done, LastFields(e));
    done := done + LastFields(e);
  }

  lemma EntrySized(e: EntryReference)
    requires WellSized(e)
    ensures forall i :: 0 <= i < |FieldsOf(e)| ==> Sized(FieldsOf(e)[i])
  {
    var n, p, c, l, t, z := NameFields(e), ProtectionFields(e), CollectionFields(e), LookFields(e), TimeFields(e), LastFields(e);
    assert forall i :: 0 <= i < |n| ==> Sized(n[i]);
    assert forall i :: 0 <= i < |p| ==> Sized(p[i]);
    assert forall i :: 0 <= i < |c| ==> Sized(c[i]);
    assert forall i :: 0 <= i < |l| ==> Sized(l[i]);
    assert forall i :: 0 <= i < |t| ==> Sized(t[i]);
    assert forall i :: 0 <= i < |z| ==> Sized(z[i]);
    hide NameFields, ProtectionFields, CollectionFields, LookFields, TimeFields, LastFields, Sized;
  }

  /**
    Encoding succeeds exactly when every length and count fits 32 bits, and then
    gives the canonical bytes; otherwise it reports the first length or count,
    in the order of writing, that does not fit.
   */
  method CanonicalEntryBytes(e: EntryReference) returns (result: Result<Text, CanonicalError>)
    requires WellSized(e)
    ensures result.Success? <==> Fits(e)
    ensures result.Success? ==> result.value == CanonicalBytes(e)
    ensures result.Failure? ==>
      && CheckFields(FieldsOf(e)) == Overflowed(result.error) && NamesOverflow(Overflowed(result.error))
      && exists k :: 0 <= k < |FieldsOf(e)| && CheckField(FieldsOf(e)[k]) == Overflowed(result.error)
           && !FieldFits(FieldsOf(e)[k]) && forall j :: 0 <= j < k ==> FieldFits(FieldsOf(e)[j])
  {
    hide FieldsOf, CheckField, CheckFields, FieldFits, FieldBytes, NamesOverflow, Sized;
    EntrySized(e);
    FieldsDecide(FieldsOf(e));
    var encoder := new Encoder.WithFraming();
    var status := WriteParts(encoder, e);
    match status
    case Written => return Success(encoder.bytes);
    case Overflowed(error) => return Failure(error);
  }
}
