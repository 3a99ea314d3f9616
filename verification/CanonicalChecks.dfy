/** What stops an encoding: the first length or count, in the order of writing, that does not fit 32 bits. */
module CanonicalChecks {
  import opened Wrappers
  import opened TextOrder
  import opened Model
  import opened CanonicalForm
  import opened CanonicalInjective

  /** How a write ended. */
  datatype Status = Written | Overflowed(error: CanonicalError) {
    predicate IsFailure() {
      Overflowed?
    }

    function PropagateFailure(): Status
      requires Overflowed?
    {
      this
    }
  }

  function CheckLength(length: nat): Status {
    if length < LIMIT_32 then Written else Overflowed(ByteLengthOverflow(length))
  }

  function CheckCount(count: nat): Status {
    if count < LIMIT_32 then Written else Overflowed(CollectionCountOverflow(count))
  }

  function Then(first: Status, second: Status): Status {
    if first.Overflowed? then first else second
  }

  function CheckText(s: Text): Status {
    CheckLength(|s|)
  }

  // ---- The values that lists and maps hold ----

  datatype Value =
    | TextValue(text: Text)
    | AttributeValue(attribute: CustomField)
    | ReferenceValue(reference: AttachmentReference)
    | ItemValue(item: DataItem)
    | AssociationValue(association: Association)

  function ValueBytes(v: Value): Text {
    match v
    case TextValue(s) => TextBytes(s)
    case AttributeValue(f) => AttributeBytes(f)
    case ReferenceValue(r) => ReferenceBytes(r)
    case ItemValue(item) => DataItemBytes(item)
    case AssociationValue(a) => AssociationBytes(a)
  }

  function CheckValue(v: Value): Status {
    match v
    case TextValue(s) => CheckText(s)
    case AttributeValue(f) => CheckText(f.value)
    case ReferenceValue(_) => Written
    case ItemValue(item) => CheckText(item.value)
    case AssociationValue(a) => Then(CheckText(a.window), CheckText(a.sequence))
  }

  function CheckEach(list: seq<Value>): Status {
    if list == [] then Written else Then(CheckValue(list[0]), CheckEach(list[1..]))
  }

  function CheckList(list: seq<Value>): Status {
    Then(CheckCount(|list|), CheckEach(list))
  }

  /** The members of a set in ascending order, as they are visited. */
  function Members(tags: set<Text>): seq<Value> {
    var sorted := SortTexts(tags);
    seq(|sorted|, i requires 0 <= i < |sorted| => TextValue(sorted[i]))
  }

  function CheckEntries(entries: seq<(Text, Value)>): Status {
    if entries == [] then Written
    else Then(Then(CheckText(entries[0].0), CheckValue(entries[0].1)), CheckEntries(entries[1..]))
  }

  function CheckMap(m: map<Text, Value>): Status {
    Then(CheckCount(|m|), CheckEntries(SortedEntries(m)))
  }

  // ---- Fields ----

  function Attributes(m: map<Text, CustomField>): map<Text, Value> {
    map key | key in m :: AttributeValue(m[key])
  }

  function References(m: map<Text, AttachmentReference>): map<Text, Value> {
    map key | key in m :: ReferenceValue(m[key])
  }

  function Texts(m: map<Text, Text>): map<Text, Value> {
    map key | key in m :: TextValue(m[key])
  }

  function Items(m: map<Text, DataItem>): map<Text, Value> {
    map key | key in m :: ItemValue(m[key])
  }

  function Associations(list: seq<Association>): seq<Value> {
    seq(|list|, i requires 0 <= i < |list| => AssociationValue(list[i]))
  }

  function CheckTextOption(o: Option<Text>): Status {
    if o.Some? then CheckText(o.value) else Written
  }

  function CheckAutoType(a: AutoType): Status {
    Then(CheckTextOption(a.defaultSequence), CheckList(Associations(a.associations)))
  }

  function CheckField(f: Field): Status {
    match f
    case FixedField(_, _) => Written
    case TextField(s) => CheckText(s)
    case BoolField(_) => Written
    case TagsField(tags) => Then(CheckCount(|tags|), CheckEach(Members(tags)))
    case AttributesField(m) => CheckMap(Attributes(m))
    case AttachmentsField(m) => CheckMap(References(m))
    case U32OptionField(_) => Written
    case IdOptionField(_) => Written
    case TextOptionField(o) => CheckTextOption(o)
    case U64Field(_) => Written
    case I64OptionField(_) => Written
    case U64OptionField(_) => Written
    case AutoTypeField(o) => if o.Some? then CheckAutoType(o.value) else Written
    case TextMapField(m) => CheckMap(Texts(m))
    case ItemsField(m) => CheckMap(Items(m))
  }

  function CheckFields(list: seq<Field>): Status {
    if list == [] then Written else Then(CheckField(list[0]), CheckFields(list[1..]))
  }

  // ---- The checks decide what fits ----

  /** An overflow names a length or a count that is too large. */
  predicate NamesOverflow(status: Status) {
    status.Overflowed? ==>
      match status.error
      case ByteLengthOverflow(length) => length >= LIMIT_32
      case CollectionCountOverflow(count) => count >= LIMIT_32
  }

  lemma {:induction false} EachDecides(list: seq<Value>)
    ensures CheckEach(list).Written? <==> forall i :: 0 <= i < |list| ==> CheckValue(list[i]).Written?
    ensures NamesOverflow(CheckEach(list))
  {
    if list != [] {
      EachDecides(list[1..]);
      assert list == [list[0]] + list[1..];
    }
  }

  lemma {:induction false} EntriesDecide(entries: seq<(Text, Value)>)
    ensures CheckEntries(entries).Written? <==>
      forall i :: 0 <= i < |entries| ==> TextFits(entries[i].0) && CheckValue(entries[i].1).Written?
    ensures NamesOverflow(CheckEntries(entries))
  {
    if entries != [] {
      EntriesDecide(entries[1..]);
      assert entries == [entries[0]] + entries[1..];
    }
  }

  lemma MapDecides(m: map<Text, Value>)
    ensures CheckMap(m).Written? <==>
      |m| < LIMIT_32 && forall key :: key in m ==> TextFits(key) && CheckValue(m[key]).Written?
    ensures NamesOverflow(CheckMap(m))
  {
    hide CheckValue, CheckEntries, TextFits;
    var keys, entries := SortTexts(m.Keys), SortedEntries(m);
    EntriesDecide(entries);
    assert forall j :: 0 <= j < |keys| ==> keys[j] in Elements(keys);
    if CheckEntries(entries).Written? {
      forall key | key in m ensures TextFits(key) && CheckValue(m[key]).Written? {
        assert key in Elements(keys);
        var i :| 0 <= i < |keys| && keys[i] == key;
        assert entries[i] == (key, m[key]);
      }
    }
  }

  lemma TagsDecide(tags: set<Text>)
    ensures CheckEach(Members(tags)).Written? <==> forall tag | tag in tags :: TextFits(tag)
    ensures NamesOverflow(CheckEach(Members(tags)))
  {
    var sorted := SortTexts(tags);
    EachDecides(Members(tags));
    forall tag ensures tag in tags <==> tag in sorted {
      assert tag in Elements(sorted) <==> tag in sorted;
    }
    forall i | 0 <= i < |sorted| ensures sorted[i] in tags && CheckValue(Members(tags)[i]) == CheckText(sorted[i]) {
      assert sorted[i] in sorted;
    }
    if CheckEach(Members(tags)).Written? {
      forall tag | tag in tags ensures TextFits(tag) {
        var i :| 0 <= i < |sorted| && sorted[i] == tag;
        assert CheckValue(Members(tags)[i]).Written?;
      }
    }
  }

  lemma AutoTypeDecides(a: AutoType)
    ensures CheckAutoType(a).Written? <==> AutoTypeFits(a)
    ensures NamesOverflow(CheckAutoType(a))
  {
    var list := Associations(a.associations);
    EachDecides(list);
    assert forall i :: 0 <= i < |list| ==> (CheckValue(list[i]).Written? <==> AssociationFits(a.associations[i]));
  }

  /** Identifiers and content hashes in a field have their fixed widths. */
  predicate Sized(f: Field) {
    match f
    case FixedField(value, width) => |value| == width
    case IdOptionField(o) => o.Some? ==> |o.value| == ID_BYTES
    case AttachmentsField(m) => forall name | name in m :: ReferenceFits(m[name])
    case _ => true
  }

  lemma FieldDecides(f: Field)
    requires Sized(f)
    ensures CheckField(f).Written? <==> FieldFits(f)
    ensures NamesOverflow(CheckField(f))
  {
    hide CheckEach, CheckEntries, CheckMap, CheckAutoType, AutoTypeFits, Members;
    match f
    case TagsField(tags) => TagsDecide(tags);
    case AttributesField(m) => MapDecides(Attributes(m)); SameSize(m, Attributes(m));
    case AttachmentsField(m) => MapDecides(References(m)); SameSize(m, References(m));
    case TextMapField(m) => MapDecides(Texts(m)); SameSize(m, Texts(m));
    case ItemsField(m) => MapDecides(Items(m)); SameSize(m, Items(m));
    case AutoTypeField(o) =>
      if o.Some? {
        AutoTypeDecides(o.value);
      }
    case _ =>
  }

  lemma SameSize<V, W>(m: map<Text, V>, values: map<Text, W>)
    requires values.Keys == m.Keys
    ensures |values| == |m|
  {
    assert |values| == |values.Keys| && |m| == |m.Keys|;
  }

  /** Nothing overflows exactly when everything fits; otherwise the first field that overflows is the one reported. */
  lemma {:induction false} FieldsDecide(list: seq<Field>)
    requires forall i :: 0 <= i < |list| ==> Sized(list[i])
    ensures CheckFields(list).Written? <==> forall i :: 0 <= i < |list| ==> FieldFits(list[i])
    ensures NamesOverflow(CheckFields(list))
    ensures CheckFields(list).Overflowed? ==>
      exists k :: 0 <= k < |list| && CheckFields(list) == CheckField(list[k])
        && !FieldFits(list[k]) && forall j :: 0 <= j < k ==> FieldFits(list[j])
  {
    assert NamesOverflow(Written);
    hide CheckField, FieldFits, Sized, NamesOverflow;
    if list != [] {
      FieldDecides(list[0]);
      FieldsDecide(list[1..]);
      assert list == [list[0]] + list[1..];
      if CheckField(list[0]).Written? && CheckFields(list[1..]).Overflowed? {
        var k :| 0 <= k < |list[1..]| && CheckFields(list[1..]) == CheckField(list[1..][k])
          && !FieldFits(list[1..][k]) && forall j :: 0 <= j < k ==> FieldFits(list[1..][j]);
        forall j | 0 <= j < k + 1 ensures FieldFits(list[j]) {
          if j > 0 {
            assert FieldFits(list[1..][j - 1]);
          }
        }
        assert CheckFields(list) == CheckField(list[k + 1]);
      } else if CheckField(list[0]).Overflowed? {
        assert CheckFields(list) == CheckField(list[0]);
      }
    }
  }

  // ---- The same bytes, value by value ----

  lemma {:induction false} EachSame<A, B>(p: seq<A>, q: seq<B>, f: A -> Text, g: B -> Text)
    requires |p| == |q| && forall i :: 0 <= i < |p| ==> f(p[i]) == g(q[i])
    ensures Each(p, f) == Each(q, g)
  {
    if p != [] {
      assert f(p[0]) == g(q[0]);
      EachSame(p[1..], q[1..], f, g);
    }
  }

  lemma MapSame<V>(m: map<Text, V>, values: map<Text, Value>, encode: V -> Text)
    requires values.Keys == m.Keys && forall key :: key in m ==> ValueBytes(values[key]) == encode(m[key])
    ensures MapBytes(values, ValueBytes) == MapBytes(m, encode)
  {
    hide ValueBytes, Each, TextBytes;
    SameSize(m, values);
    var p, q := SortedEntries(values), SortedEntries(m);
    var keys := SortTexts(m.Keys);
    forall i | 0 <= i < |p| ensures EntryEncoder(ValueBytes)(p[i]) == EntryEncoder(encode)(q[i]) {
      assert keys[i] in Elements(keys);
    }
    EachSame(p, q, EntryEncoder(ValueBytes), EntryEncoder(encode));
  }

  lemma ListSame(list: seq<Association>)
    ensures ListBytes(Associations(list), ValueBytes) == ListBytes(list, AssociationBytes)
  {
    EachSame(Associations(list), list, ValueBytes, AssociationBytes);
  }

  /** The maps of an entry are written value by value. */
  lemma MapFieldsSame(f: Field)
    ensures f.AttributesField? ==> FieldBytes(f) == MapBytes(Attributes(f.attributes), ValueBytes)
    ensures f.AttachmentsField? ==> FieldBytes(f) == MapBytes(References(f.attachments), ValueBytes)
    ensures f.TextMapField? ==> FieldBytes(f) == MapBytes(Texts(f.texts), ValueBytes)
    ensures f.ItemsField? ==> FieldBytes(f) == MapBytes(Items(f.items), ValueBytes)
  {
    hide MapBytes;
    match f
    case AttributesField(m) => MapSame(m, Attributes(m), AttributeBytes);
    case AttachmentsField(m) => MapSame(m, References(m), ReferenceBytes);
    case TextMapField(m) => MapSame(m, Texts(m), TextBytes);
    case ItemsField(m) => MapSame(m, Items(m), DataItemBytes);
    case _ =>
  }
}
