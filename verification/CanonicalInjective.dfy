/** The canonical encoding is injective: equal bytes come only from equal entries. */
module CanonicalInjective {
  import opened Wrappers
  import opened TextOrder
  import opened Model
  import opened CanonicalForm

  // ---- Cutting equal strings ----

  lemma CutSameLength(a: Text, s: Text, b: Text, t: Text)
    requires |a| == |b| && a + s == b + t
    ensures a == b && s == t
  {
    assert a == (a + s)[..|a|] && b == (b + t)[..|a|];
    assert s == (a + s)[|a|..] && t == (b + t)[|a|..];
  }

  lemma Regroup(a: Text, b: Text, c: Text)
    ensures (a + b) + c == a + (b + c)
  {
  }

  /** What a prefix leaves of the whole. */
  lemma Rest(a: Text, b: Text) returns (rest: Text)
    requires a <= b
    ensures b == a + rest
  {
    rest := b[|a|..];
  }

  /** No fitting value's code is a proper prefix of another's. */
  ghost predicate PrefixCode<T(!new)>(encode: T -> Text, fits: T -> bool) {
    forall x, y :: fits(x) && fits(y) && encode(x) <= encode(y) ==> x == y
  }

  /** A prefix code can be cut off the front of a string in only one way. */
  lemma Cancel<T(!new)>(encode: T -> Text, fits: T -> bool, x: T, y: T, s: Text, t: Text)
    requires PrefixCode(encode, fits) && fits(x) && fits(y)
    requires encode(x) + s == encode(y) + t
    ensures x == y && s == t
  {
    var whole := encode(x) + s;
    assert encode(x) <= whole && encode(y) <= whole;
    assert encode(x) <= encode(y) || encode(y) <= encode(x);
    CutSameLength(encode(x), s, encode(y), t);
  }

  // ---- Numbers ----

  ghost function Power256(k: nat): nat {
    if k == 0 then 1 else 256 * Power256(k - 1)
  }

  lemma {:induction false} LittleEndianInjective(a: nat, b: nat, k: nat)
    requires a < Power256(k) && b < Power256(k) && LittleEndian(a, k) == LittleEndian(b, k)
    ensures a == b
    decreases k
  {
    if k > 0 {
      var x, y := LittleEndian(a, k), LittleEndian(b, k);
      assert x[0] == y[0] && x[1..] == y[1..];
      assert x[1..] == LittleEndian(a / 256, k - 1) && y[1..] == LittleEndian(b / 256, k - 1);
      LittleEndianInjective(a / 256, b / 256, k - 1);
    }
  }

  lemma Widths()
    ensures Power256(4) == LIMIT_32 && Power256(8) == LIMIT_64
  {
    assert Power256(2) == 0x1_0000 && Power256(4) == LIMIT_32;
    assert Power256(6) == 0x1_0000_0000_0000;
  }

  lemma CountsAgree(a: nat, b: nat, s: Text, t: Text)
    requires a < LIMIT_32 && b < LIMIT_32 && LittleEndian(a, 4) + s == LittleEndian(b, 4) + t
    ensures a == b && s == t
  {
    Widths();
    CutSameLength(LittleEndian(a, 4), s, LittleEndian(b, 4), t);
    LittleEndianInjective(a, b, 4);
  }

  predicate Always<T>(x: T) { true }

  lemma NumbersArePrefixCodes()
    ensures PrefixCode(BoolBytes, Always) && PrefixCode(U32Bytes, Always) && PrefixCode(U64Bytes, Always)
    ensures PrefixCode(I32Bytes, Always) && PrefixCode(I64Bytes, Always)
  {
    Widths();
    forall x: bool, y: bool | BoolBytes(x) <= BoolBytes(y) ensures x == y {
      assert BoolBytes(x)[0] == BoolBytes(y)[0];
    }
    forall x: U32, y: U32 | U32Bytes(x) <= U32Bytes(y) ensures x == y { LittleEndianInjective(x, y, 4); }
    forall x: U64, y: U64 | U64Bytes(x) <= U64Bytes(y) ensures x == y { LittleEndianInjective(x, y, 8); }
    forall x: I32, y: I32 | I32Bytes(x) <= I32Bytes(y) ensures x == y {
      LittleEndianInjective(TwosComplement(x, LIMIT_32), TwosComplement(y, LIMIT_32), 4);
    }
    forall x: I64, y: I64 | I64Bytes(x) <= I64Bytes(y) ensures x == y {
      LittleEndianInjective(TwosComplement(x, LIMIT_64), TwosComplement(y, LIMIT_64), 8);
    }
  }

  // ---- Texts, options, lists ----

  lemma TextIsPrefixCode()
    ensures PrefixCode(TextBytes, TextFits)
  {
    hide LittleEndian;
    forall x, y | TextFits(x) && TextFits(y) && TextBytes(x) <= TextBytes(y) ensures x == y {
      var rest := Rest(TextBytes(x), TextBytes(y));
      Regroup(LittleEndian(|x|, 4), x, rest);
      CountsAgree(|x|, |y|, x + rest, y);
    }
  }

  lemma TextCancel(x: Text, y: Text, s: Text, t: Text)
    requires TextFits(x) && TextFits(y) && TextBytes(x) + s == TextBytes(y) + t
    ensures x == y && s == t
  {
    TextIsPrefixCode();
    Cancel(TextBytes, TextFits, x, y, s, t);
  }

  lemma FlagCancel(x: bool, y: bool, s: Text, t: Text)
    requires Flag(x) + s == Flag(y) + t
    ensures x == y && s == t
  {
    CutSameLength(Flag(x), s, Flag(y), t);
    assert Flag(x)[0] == Flag(y)[0];
  }

  lemma OptionCancel<T(!new)>(encode: T -> Text, fits: T -> bool, x: Option<T>, y: Option<T>, s: Text, t: Text)
    requires PrefixCode(encode, fits) && (x.Some? ==> fits(x.value)) && (y.Some? ==> fits(y.value))
    requires OptionBytes(x, encode) + s == OptionBytes(y, encode) + t
    ensures x == y && s == t
  {
    assert (OptionBytes(x, encode) + s)[0] == (OptionBytes(y, encode) + t)[0];
    if x.Some? {
      Regroup([1 as char], encode(x.value), s);
      Regroup([1 as char], encode(y.value), t);
      CutSameLength([1 as char], encode(x.value) + s, [1 as char], encode(y.value) + t);
      Cancel(encode, fits, x.value, y.value, s, t);
    } else {
      CutSameLength([0 as char], s, [0 as char], t);
    }
  }

  lemma {:induction false} EachCancel<T(!new)>(encode: T -> Text, fits: T -> bool, p: seq<T>, q: seq<T>, s: Text, t: Text)
    requires PrefixCode(encode, fits) && |p| == |q|
    requires forall i :: 0 <= i < |p| ==> fits(p[i]) && fits(q[i])
    requires Each(p, encode) + s == Each(q, encode) + t
    ensures p == q && s == t
  {
    if p != [] {
      Regroup(encode(p[0]), Each(p[1..], encode), s);
      Regroup(encode(q[0]), Each(q[1..], encode), t);
      Cancel(encode, fits, p[0], q[0], Each(p[1..], encode) + s, Each(q[1..], encode) + t);
      EachCancel(encode, fits, p[1..], q[1..], s, t);
      assert p == [p[0]] + p[1..] && q == [q[0]] + q[1..];
    } else {
      assert [] + s == s && [] + t == t;
    }
  }

  lemma ListCancel<T(!new)>(encode: T -> Text, fits: T -> bool, p: seq<T>, q: seq<T>, s: Text, t: Text)
    requires PrefixCode(encode, fits) && |p| < LIMIT_32 && |q| < LIMIT_32
    requires (forall i :: 0 <= i < |p| ==> fits(p[i])) && (forall i :: 0 <= i < |q| ==> fits(q[i]))
    requires ListBytes(p, encode) + s == ListBytes(q, encode) + t
    ensures p == q && s == t
  {
    Regroup(LittleEndian(|p|, 4), Each(p, encode), s);
    Regroup(LittleEndian(|q|, 4), Each(q, encode), t);
    CountsAgree(|p|, |q|, Each(p, encode) + s, Each(q, encode) + t);
    EachCancel(encode, fits, p, q, s, t);
  }

  // ---- Sets ----

  predicate IsTextCode(code: Text) {
    |code| >= 4 && TextFits(code[4..]) && code == TextBytes(code[4..])
  }

  lemma CodesArePrefixCode()
    ensures PrefixCode(RawBytes, IsTextCode)
  {
    TextIsPrefixCode();
    forall c, d | IsTextCode(c) && IsTextCode(d) && RawBytes(c) <= RawBytes(d) ensures c == d {
      assert TextBytes(c[4..]) <= TextBytes(d[4..]);
    }
  }

  lemma TextBytesTail(tag: Text)
    ensures TextBytes(tag)[4..] == tag
  {
  }

  lemma {:induction false} ImageSize(tags: set<Text>)
    ensures |set tag | tag in tags :: TextBytes(tag)| == |tags|
  {
    hide TextBytes;
    var image := set tag | tag in tags :: TextBytes(tag);
    if tags == {} {
      assert image == {};
    } else {
      var x :| x in tags;
      var rest := tags - {x};
      ImageSize(rest);
      var restImage := set tag | tag in rest :: TextBytes(tag);
      forall tag | tag in rest ensures TextBytes(tag) != TextBytes(x) {
        TextBytesTail(tag);
        TextBytesTail(x);
      }
      assert image == restImage + {TextBytes(x)};
    }
  }

  ghost predicate TagsFit(tags: set<Text>) {
    |tags| < LIMIT_32 && forall tag :: tag in tags ==> TextFits(tag)
  }

  lemma SetCancel(a: set<Text>, b: set<Text>, s: Text, t: Text)
    requires TagsFit(a) && TagsFit(b) && SetBytes(a) + s == SetBytes(b) + t
    ensures a == b && s == t
  {
    hide SortedMembers, Each, PrefixCode;
    var p, q := SortedMembers(a), SortedMembers(b);
    Regroup(LittleEndian(|a|, 4), Each(p, RawBytes), s);
    Regroup(LittleEndian(|b|, 4), Each(q, RawBytes), t);
    CountsAgree(|a|, |b|, Each(p, RawBytes) + s, Each(q, RawBytes) + t);
    MembersAreCodes(a);
    MembersAreCodes(b);
    CodesArePrefixCode();
    EachCancel(RawBytes, IsTextCode, p, q, s, t);
    MembersDetermine(a, b);
  }

  lemma MembersAreCodes(tags: set<Text>)
    requires TagsFit(tags)
    ensures |SortedMembers(tags)| == |tags|
    ensures forall i :: 0 <= i < |SortedMembers(tags)| ==> IsTextCode(SortedMembers(tags)[i])
  {
    ImageSize(tags);
    var q := SortedMembers(tags);
    forall i | 0 <= i < |q| ensures IsTextCode(q[i]) {
      assert q[i] in Elements(q);
      var tag :| tag in tags && q[i] == TextBytes(tag);
      TextBytesTail(tag);
    }
  }

  lemma MembersDetermine(a: set<Text>, b: set<Text>)
    requires SortedMembers(a) == SortedMembers(b)
    ensures a == b
  {
    var image := Elements(SortedMembers(a));
    forall tag ensures tag in a <==> TextBytes(tag) in image
               ensures tag in b <==> TextBytes(tag) in image
    {
      TextBytesTail(tag);
      if TextBytes(tag) in image {
        var x :| x in a && TextBytes(x) == TextBytes(tag);
        var y :| y in b && TextBytes(y) == TextBytes(tag);
        TextBytesTail(x);
        TextBytesTail(y);
      }
    }
  }

  // ---- Maps ----

  predicate PairFits<V(!new)>(entry: (Text, V), fits: V -> bool) {
    TextFits(entry.0) && fits(entry.1)
  }

  function PairFitter<V(!new)>(fits: V -> bool): ((Text, V)) -> bool {
    (entry: (Text, V)) => PairFits(entry, fits)
  }

  lemma PairsArePrefixCode<V(!new)>(encode: V -> Text, fits: V -> bool)
    requires PrefixCode(encode, fits)
    ensures PrefixCode(EntryEncoder(encode), PairFitter(fits))
  {
    hide TextBytes, TextFits;
    forall x: (Text, V), y: (Text, V)
      | PairFits(x, fits) && PairFits(y, fits) && EntryBytes(x, encode) <= EntryBytes(y, encode)
      ensures x == y
    {
      var rest := Rest(EntryBytes(x, encode), EntryBytes(y, encode));
      Regroup(TextBytes(x.0), encode(x.1), rest);
      TextCancel(x.0, y.0, encode(x.1) + rest, encode(y.1));
      assert encode(x.1) <= encode(y.1);
    }
  }

  lemma EntriesFit<V(!new)>(m: map<Text, V>, fits: V -> bool)
    requires MapFits(m, fits)
    ensures |SortedEntries(m)| == |m|
    ensures forall i :: 0 <= i < |SortedEntries(m)| ==> PairFitter(fits)(SortedEntries(m)[i])
  {
    var keys := SortTexts(m.Keys);
    assert forall i :: 0 <= i < |keys| ==> keys[i] in Elements(keys);
    assert |m.Keys| == |m|;
  }

  lemma EntriesDetermine<V>(m: map<Text, V>, n: map<Text, V>)
    requires SortedEntries(m) == SortedEntries(n)
    ensures m == n
  {
    hide SortTexts;
    var p, q := SortTexts(m.Keys), SortTexts(n.Keys);
    assert |p| == |SortedEntries(m)| && |q| == |SortedEntries(n)|;
    forall i | 0 <= i < |p| ensures p[i] == q[i] && p[i] in m && p[i] in n && m[p[i]] == n[p[i]] {
      assert SortedEntries(m)[i] == SortedEntries(n)[i];
      assert p[i] in Elements(p) && q[i] in Elements(q);
    }
    assert p == q;
    assert m.Keys == Elements(p) == n.Keys;
    forall k | k in m ensures m[k] == n[k] {
      assert k in Elements(p);
      var i :| 0 <= i < |p| && p[i] == k;
    }
  }

  lemma MapCancel<V(!new)>(encode: V -> Text, fits: V -> bool, m: map<Text, V>, n: map<Text, V>, s: Text, t: Text)
    requires PrefixCode(encode, fits) && MapFits(m, fits) && MapFits(n, fits)
    requires MapBytes(m, encode) + s == MapBytes(n, encode) + t
    ensures m == n && s == t
  {
    var p, q := SortedEntries(m), SortedEntries(n);
    var x, y := Each(p, EntryEncoder(encode)), Each(q, EntryEncoder(encode));
    Regroup(LittleEndian(|m|, 4), x, s);
    Regroup(LittleEndian(|n|, 4), y, t);
    CountsAgree(|m|, |n|, x + s, y + t);
    EntriesFit(m, fits);
    EntriesFit(n, fits);
    PairsArePrefixCode(encode, fits);
    EachCancel(EntryEncoder(encode), PairFitter(fits), p, q, s, t);
    EntriesDetermine(m, n);
  }

  // ---- The values inside maps and options ----

  lemma AttributesArePrefixCode()
    ensures PrefixCode(AttributeBytes, AttributeFits)
  {
    hide TextBytes, TextFits, Flag;
    forall x, y | AttributeFits(x) && AttributeFits(y) && AttributeBytes(x) <= AttributeBytes(y) ensures x == y {
      var rest := Rest(AttributeBytes(x), AttributeBytes(y));
      Regroup(TextBytes(x.value), Flag(x.isProtected), rest);
      TextCancel(x.value, y.value, Flag(x.isProtected) + rest, Flag(y.isProtected));
      assert Flag(y.isProtected) + [] == Flag(y.isProtected);
      FlagCancel(x.isProtected, y.isProtected, rest, []);
    }
  }

  lemma ReferencesArePrefixCode()
    ensures PrefixCode(ReferenceBytes, ReferenceFits)
  {
    forall x, y | ReferenceFits(x) && ReferenceFits(y) && ReferenceBytes(x) <= ReferenceBytes(y) ensures x == y {
      FlagCancel(x.protectInMemory, y.protectInMemory, x.contentId, y.contentId);
    }
  }

  lemma ItemCancel(x: DataItem, y: DataItem, s: Text, t: Text)
    requires DataItemFits(x) && DataItemFits(y) && DataItemBytes(x) + s == DataItemBytes(y) + t
    ensures x == y && s == t
  {
    hide OptionBytes, TextBytes, PrefixCode;
    NumbersArePrefixCodes();
    var a, b := OptionBytes(x.lastModified, I64Bytes), OptionBytes(y.lastModified, I64Bytes);
    Regroup(TextBytes(x.value), a, s);
    Regroup(TextBytes(y.value), b, t);
    TextCancel(x.value, y.value, a + s, b + t);
    OptionCancel(I64Bytes, Always, x.lastModified, y.lastModified, s, t);
  }

  lemma ItemsArePrefixCode()
    ensures PrefixCode(DataItemBytes, DataItemFits)
  {
    hide DataItemFits;
    forall x, y | DataItemFits(x) && DataItemFits(y) && DataItemBytes(x) <= DataItemBytes(y) ensures x == y {
      var rest := Rest(DataItemBytes(x), DataItemBytes(y));
      assert DataItemBytes(y) + [] == DataItemBytes(y);
      ItemCancel(x, y, rest, []);
    }
  }

  lemma AssociationsArePrefixCode()
    ensures PrefixCode(AssociationBytes, AssociationFits)
  {
    hide TextBytes, TextFits;
    forall x, y | AssociationFits(x) && AssociationFits(y) && AssociationBytes(x) <= AssociationBytes(y) ensures x == y {
      var rest := Rest(AssociationBytes(x), AssociationBytes(y));
      Regroup(TextBytes(x.window), TextBytes(x.sequence), rest);
      TextCancel(x.window, y.window, TextBytes(x.sequence) + rest, TextBytes(y.sequence));
      assert TextBytes(y.sequence) + [] == TextBytes(y.sequence);
      TextCancel(x.sequence, y.sequence, rest, []);
    }
  }

  lemma AutoTypeCancel(x: AutoType, y: AutoType, s: Text, t: Text)
    requires AutoTypeFits(x) && AutoTypeFits(y) && AutoTypeBytes(x) + s == AutoTypeBytes(y) + t
    ensures x == y && s == t
  {
    hide OptionBytes, ListBytes, PrefixCode;
    NumbersArePrefixCodes();
    TextIsPrefixCode();
    AssociationsArePrefixCode();
    var a1, b1 := OptionBytes(x.enabled, BoolBytes), OptionBytes(y.enabled, BoolBytes);
    var a2, b2 := OptionBytes(x.obfuscation, I32Bytes), OptionBytes(y.obfuscation, I32Bytes);
    var a3, b3 := OptionBytes(x.defaultSequence, TextBytes), OptionBytes(y.defaultSequence, TextBytes);
    var a4, b4 := ListBytes(x.associations, AssociationBytes), ListBytes(y.associations, AssociationBytes);
    assert a1 + (a2 + (a3 + (a4 + s))) == AutoTypeBytes(x) + s;
    assert b1 + (b2 + (b3 + (b4 + t))) == AutoTypeBytes(y) + t;
    OptionCancel(BoolBytes, Always, x.enabled, y.enabled, a2 + (a3 + (a4 + s)), b2 + (b3 + (b4 + t)));
    OptionCancel(I32Bytes, Always, x.obfuscation, y.obfuscation, a3 + (a4 + s), b3 + (b4 + t));
    OptionCancel(TextBytes, TextFits, x.defaultSequence, y.defaultSequence, a4 + s, b4 + t);
    ListCancel(AssociationBytes, AssociationFits, x.associations, y.associations, s, t);
  }

  lemma AutoTypesArePrefixCode()
    ensures PrefixCode(AutoTypeBytes, AutoTypeFits)
  {
    hide AutoTypeBytes, AutoTypeFits;
    forall x, y | AutoTypeFits(x) && AutoTypeFits(y) && AutoTypeBytes(x) <= AutoTypeBytes(y) ensures x == y {
      var rest := Rest(AutoTypeBytes(x), AutoTypeBytes(y));
      assert AutoTypeBytes(y) + [] == AutoTypeBytes(y);
      AutoTypeCancel(x, y, rest, []);
    }
  }

  predicate IsId(s: Text) {
    |s| == ID_BYTES
  }

  // ---- Fields, and the entry ----

  function Kind(f: Field): nat {
    match f
    case FixedField(_, _) => 0
    case TextField(_) => 1
    case BoolField(_) => 2
    case TagsField(_) => 3
    case AttributesField(_) => 4
    case AttachmentsField(_) => 5
    case U32OptionField(_) => 6
    case IdOptionField(_) => 7
    case TextOptionField(_) => 8
    case U64Field(_) => 9
    case I64OptionField(_) => 10
    case U64OptionField(_) => 11
    case AutoTypeField(_) => 12
    case TextMapField(_) => 13
    case ItemsField(_) => 14
  }

  /** The same kind of field, of the same fixed width. */
  predicate SameKind(f: Field, g: Field) {
    Kind(f) == Kind(g) && (f.FixedField? && g.FixedField? ==> f.width == g.width)
  }

  lemma FieldCancel(f: Field, g: Field, s: Text, t: Text)
    requires SameKind(f, g) && FieldFits(f) && FieldFits(g)
    requires FieldBytes(f) + s == FieldBytes(g) + t
    ensures f == g && s == t
  {
    hide PrefixCode, MapBytes, SetBytes, OptionBytes, TextBytes, Flag, MapFits, AutoTypeFits, TextFits;
    match f
    case FixedField(x, _) => CutSameLength(x, s, g.bytes, t);
    case TextField(x) => TextCancel(x, g.text, s, t);
    case BoolField(x) => FlagCancel(x, g.flag, s, t);
    case TagsField(x) => SetCancel(x, g.tags, s, t);
    case AttributesField(m) =>
      AttributesArePrefixCode();
      MapCancel(AttributeBytes, AttributeFits, m, g.attributes, s, t);
    case AttachmentsField(m) =>
      ReferencesArePrefixCode();
      MapCancel(ReferenceBytes, ReferenceFits, m, g.attachments, s, t);
    case U32OptionField(o) =>
      NumbersArePrefixCodes();
      OptionCancel(U32Bytes, Always, o, g.icon, s, t);
    case IdOptionField(o) =>
      IdsArePrefixCode();
      OptionCancel(RawBytes, IsId, o, g.id, s, t);
    case TextOptionField(o) =>
      TextIsPrefixCode();
      OptionCancel(TextBytes, TextFits, o, g.optionalText, s, t);
    case U64Field(x) =>
      NumbersArePrefixCodes();
      Cancel(U64Bytes, Always, x, g.number, s, t);
    case I64OptionField(o) =>
      NumbersArePrefixCodes();
      OptionCancel(I64Bytes, Always, o, g.signed, s, t);
    case U64OptionField(o) =>
      NumbersArePrefixCodes();
      OptionCancel(U64Bytes, Always, o, g.unsigned, s, t);
    case AutoTypeField(o) =>
      AutoTypesArePrefixCode();
      OptionCancel(AutoTypeBytes, AutoTypeFits, o, g.autoType, s, t);
    case TextMapField(m) =>
      TextIsPrefixCode();
      MapCancel(TextBytes, TextFits, m, g.texts, s, t);
    case ItemsField(m) =>
      ItemsArePrefixCode();
      MapCancel(DataItemBytes, DataItemFits, m, g.items, s, t);
  }

  lemma IdsArePrefixCode()
    ensures PrefixCode(RawBytes, IsId)
  {
    forall x, y | IsId(x) && IsId(y) && RawBytes(x) <= RawBytes(y) ensures x == y {
      assert x == y[..|x|];
    }
  }

  lemma {:induction false} FieldsCancel(p: seq<Field>, q: seq<Field>, s: Text, t: Text)
    requires |p| == |q|
    requires forall i :: 0 <= i < |p| ==> SameKind(p[i], q[i]) && FieldFits(p[i]) && FieldFits(q[i])
    requires Each(p, FieldBytes) + s == Each(q, FieldBytes) + t
    ensures p == q && s == t
  {
    hide SameKind, FieldFits, FieldBytes;
    if p != [] {
      var x, y := Each(p[1..], FieldBytes) + s, Each(q[1..], FieldBytes) + t;
      Regroup(FieldBytes(p[0]), Each(p[1..], FieldBytes), s);
      Regroup(FieldBytes(q[0]), Each(q[1..], FieldBytes), t);
      FieldCancel(p[0], q[0], x, y);
      FieldsCancel(p[1..], q[1..], s, t);
      assert p == [p[0]] + p[1..] && q == [q[0]] + q[1..];
    } else {
      assert [] + s == s && [] + t == t;
    }
  }

  ghost predicate Aligned(p: seq<Field>, q: seq<Field>) {
    |p| == |q| && forall i :: 0 <= i < |p| ==> SameKind(p[i], q[i])
  }

  lemma AlignedAppend(p: seq<Field>, p': seq<Field>, q: seq<Field>, q': seq<Field>)
    requires Aligned(p, q) && Aligned(p', q')
    ensures Aligned(p + p', q + q')
  {
    hide SameKind;
  }

  lemma FieldsAlign(a: EntryReference, b: EntryReference)
    ensures Aligned(FieldsOf(a), FieldsOf(b))
  {
    hide NameFields, ProtectionFields, CollectionFields, LookFields, TimeFields, LastFields, Aligned;
    NameFieldsAlign(a, b);
    ProtectionFieldsAlign(a, b);
    CollectionFieldsAlign(a, b);
    LookFieldsAlign(a, b);
    TimeFieldsAlign(a, b);
    LastFieldsAlign(a, b);
    AlignedAppend(TimeFields(a), LastFields(a), TimeFields(b), LastFields(b));
    var x, y := TimeFields(a) + LastFields(a), TimeFields(b) + LastFields(b);
    AlignedAppend(LookFields(a), x, LookFields(b), y);
    AlignedAppend(CollectionFields(a), LookFields(a) + x, CollectionFields(b), LookFields(b) + y);
    var v, w := CollectionFields(a) + (LookFields(a) + x), CollectionFields(b) + (LookFields(b) + y);
    AlignedAppend(ProtectionFields(a), v, ProtectionFields(b), w);
    AlignedAppend(NameFields(a), ProtectionFields(a) + v, NameFields(b), ProtectionFields(b) + w);
  }

  lemma NameFieldsAlign(a: EntryReference, b: EntryReference)
    ensures Aligned(NameFields(a), NameFields(b))
  {
  }

  lemma ProtectionFieldsAlign(a: EntryReference, b: EntryReference)
    ensures Aligned(ProtectionFields(a), ProtectionFields(b))
  {
  }

  lemma CollectionFieldsAlign(a: EntryReference, b: EntryReference)
    ensures Aligned(CollectionFields(a), CollectionFields(b))
  {
  }

  lemma LookFieldsAlign(a: EntryReference, b: EntryReference)
    ensures Aligned(LookFields(a), LookFields(b))
  {
  }

  lemma TimeFieldsAlign(a: EntryReference, b: EntryReference)
    ensures Aligned(TimeFields(a), TimeFields(b))
  {
  }

  lemma LastFieldsAlign(a: EntryReference, b: EntryReference)
    ensures Aligned(LastFields(a), LastFields(b))
  {
  }

  lemma CutFields(p: seq<Field>, p': seq<Field>, q: seq<Field>, q': seq<Field>)
    requires |p| == |q| && p + p' == q + q'
    ensures p == q && p' == q'
  {
    assert p == (p + p')[..|p|] && q == (q + q')[..|p|];
    assert p' == (p + p')[|p|..] && q' == (q + q')[|p|..];
  }

  lemma PartsAgree(a: EntryReference, b: EntryReference)
    requires FieldsOf(a) == FieldsOf(b)
    ensures NameFields(a) == NameFields(b) && ProtectionFields(a) == ProtectionFields(b)
    ensures CollectionFields(a) == CollectionFields(b) && LookFields(a) == LookFields(b)
    ensures TimeFields(a) == TimeFields(b) && LastFields(a) == LastFields(b)
  {
    var x, y := TimeFields(a) + LastFields(a), TimeFields(b) + LastFields(b);
    var v, w := CollectionFields(a) + (LookFields(a) + x), CollectionFields(b) + (LookFields(b) + y);
    CutFields(NameFields(a), ProtectionFields(a) + v, NameFields(b), ProtectionFields(b) + w);
    CutFields(ProtectionFields(a), v, ProtectionFields(b), w);
    CutFields(CollectionFields(a), LookFields(a) + x, CollectionFields(b), LookFields(b) + y);
    CutFields(LookFields(a), x, LookFields(b), y);
    CutFields(TimeFields(a), LastFields(a), TimeFields(b), LastFields(b));
  }

  lemma FieldsDetermine(a: EntryReference, b: EntryReference)
    requires FieldsOf(a) == FieldsOf(b)
    ensures a == b
  {
    hide FieldsOf;
    PartsAgree(a, b);
    var n, m := NameFields(a), NameFields(b);
    assert n[0] == m[0] && n[1] == m[1] && n[2] == m[2] && n[3] == m[3] && n[4] == m[4] && n[5] == m[5];
    var p, q := ProtectionFields(a), ProtectionFields(b);
    assert p[0] == q[0] && p[1] == q[1] && p[2] == q[2] && p[3] == q[3] && p[4] == q[4];
    var c, d := CollectionFields(a), CollectionFields(b);
    assert c[0] == d[0] && c[1] == d[1] && c[2] == d[2];
    var l, o := LookFields(a), LookFields(b);
    assert l[0] == o[0] && l[1] == o[1] && l[2] == o[2] && l[3] == o[3] && l[4] == o[4];
    var t, u := TimeFields(a), TimeFields(b);
    assert t[0] == u[0] && t[1] == u[1] && t[2] == u[2] && t[3] == u[3];
    assert t[4] == u[4] && t[5] == u[5] && t[6] == u[6] && t[7] == u[7];
    var x, y := LastFields(a), LastFields(b);
    assert x[0] == y[0] && x[1] == y[1] && x[2] == y[2] && x[3] == y[3];
  }

  /**
    Two entries that both encode give the same bytes exactly when all their
    encoded fields agree: tags as sets, the maps as maps, associations as lists.
   */
  lemma CanonicalAndInjective(a: EntryReference, b: EntryReference)
    requires Fits(a) && Fits(b)
    ensures CanonicalBytes(a) == CanonicalBytes(b) <==> a == b
  {
    hide FieldFits, FieldBytes, FieldsOf, SameKind, Each;
    if CanonicalBytes(a) == CanonicalBytes(b) {
      var x, y := Each(FieldsOf(a), FieldBytes), Each(FieldsOf(b), FieldBytes);
      CutSameLength(Framing(), x, Framing(), y);
      FieldsAlign(a, b);
      assert x + [] == x && y + [] == y;
      FieldsCancel(FieldsOf(a), FieldsOf(b), [], []);
      FieldsDetermine(a, b);
    }
  }
}
