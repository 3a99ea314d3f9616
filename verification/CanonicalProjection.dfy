/** From an entry to what its canonical encoding sees. */
module CanonicalProjection {
  import opened Wrappers
  import opened IdOrder
  import opened TextOrder
  import opened Model
  import opened CanonicalForm
  import opened CanonicalInjective
  import opened CanonicalChecks
  import opened CanonicalEncoder
  import opened Attributes
  import CD = CustomData

  /** The encoded fields that the vault model does not carry, and the two byte forms it leaves open. */
  datatype Surroundings = Surroundings(
    url: Text, notes: Text, protection: Protection,
    foregroundColor: Option<Text>, backgroundColor: Option<Text>, overrideUrl: Option<Text>,
    createdAt: U64, expires: bool, expiryTime: Option<I64>, lastAccessedAt: Option<U64>, usageCount: Option<U64>,
    previousParent: Option<Text>, autoType: Option<AutoType>, excludeFromReports: bool,
    idBytes: Uuid -> Text, contentId: seq<Byte> -> Text)

  predicate IsI64(n: int) {
    -0x8000_0000_0000_0000 <= n < 0x8000_0000_0000_0000
  }

  /** The entry's numbers are machine numbers. */
  predicate InRange(e: Entry) {
    && e.modifiedAt < LIMIT_64
    && (e.iconId.Some? ==> e.iconId.value < LIMIT_32)
    && (e.locationChangedAt.Some? ==> e.locationChangedAt.value < LIMIT_64)
    && forall key | key in CD.View(e.customDataBlocks) ::
         CD.View(e.customDataBlocks)[key].lastModified.Some? ==> IsI64(CD.View(e.customDataBlocks)[key].lastModified.value)
  }

  /** The last item of each key, in block order. */
  function DataItems(e: Entry): map<Text, DataItem>
    requires InRange(e)
  {
    var view := CD.View(e.customDataBlocks);
    map key | key in view ::
      DataItem(view[key].value, if view[key].lastModified.Some? then Some(view[key].lastModified.value as I64) else None)
  }

  function Project(e: Entry, s: Surroundings): EntryReference
    requires InRange(e)
  {
    EntryReference(
      s.idBytes(e.id), e.title, e.username, e.password, s.url, s.notes, s.protection, e.tags,
      Materialize(e).fields,
      map name | name in e.attachments ::
        AttachmentReference(e.attachments[name].protectInMemory, s.contentId(e.attachments[name].content)),
      if e.iconId.Some? then Some(e.iconId.value as U32) else None,
      if e.customIconId.Some? then Some(s.idBytes(e.customIconId.value)) else None,
      s.foregroundColor, s.backgroundColor, s.overrideUrl,
      s.createdAt, e.modifiedAt, s.expires, s.expiryTime, s.lastAccessedAt, s.usageCount,
      if e.locationChangedAt.Some? then Some(e.locationChangedAt.value as U64) else None,
      s.previousParent, s.autoType, e.customData, DataItems(e), s.excludeFromReports)
  }

  /**
    Storing the materialised view and clearing the projections leaves the
    canonical bytes unchanged, unless a projected TOTP's printed label shifts;
    then, when both encode, the bytes always change.
   */
  lemma StoringKeepsCanonicalBytes(e: Entry, s: Surroundings)
    requires InRange(e) && TypedTotp(e)
    ensures InRange(Stored(e))
    ensures !ShiftsLabel(e) ==> CanonicalBytes(Project(Stored(e), s)) == CanonicalBytes(Project(e, s))
    ensures Fits(Project(e, s)) && Fits(Project(Stored(e), s)) ==>
      (CanonicalBytes(Project(Stored(e), s)) == CanonicalBytes(Project(e, s)) <==> !ShiftsLabel(e))
  {
    hide Materialize, CanonicalBytes, Fits, ShiftsLabel, TypedTotp;
    MaterializeIsIdempotent(e);
    StoredAt(e, []);
    if Fits(Project(e, s)) && Fits(Project(Stored(e), s)) {
      CanonicalAndInjective(Project(Stored(e), s), Project(e, s));
      assert Project(e, s).attributes == Materialize(e).fields;
      assert Project(Stored(e), s).attributes == Materialize(Stored(e)).fields;
    }
  }

  /** Both surroundings write identifiers and contents the same way. */
  ghost predicate SameWriters(s: Surroundings, t: Surroundings) {
    s.idBytes == t.idBytes && s.contentId == t.contentId
  }

  /**
    Between entries that encode, equal bytes mean equal views, equal maps and
    equal surroundings; only history, raw state and fidelity do not count.
   */
  lemma EqualBytesMeanEqualContent(a: Entry, s: Surroundings, b: Entry, t: Surroundings)
    requires InRange(a) && InRange(b) && SameWriters(s, t) && Fits(Project(a, s)) && Fits(Project(b, t))
    ensures CanonicalBytes(Project(a, s)) == CanonicalBytes(Project(b, t)) <==> Project(a, s) == Project(b, t)
    ensures CanonicalBytes(Project(a, s)) == CanonicalBytes(Project(b, t)) ==>
      && s == t
      && a.title == b.title && a.username == b.username && a.password == b.password && a.tags == b.tags
      && Materialize(a).fields == Materialize(b).fields && a.attachments.Keys == b.attachments.Keys
      && a.customData == b.customData && DataItems(a) == DataItems(b)
      && a.iconId == b.iconId && a.modifiedAt == b.modifiedAt && a.locationChangedAt == b.locationChangedAt
  {
    hide Materialize, CanonicalBytes, Fits, DataItems;
    CanonicalAndInjective(Project(a, s), Project(b, t));
    if Project(a, s) == Project(b, t) {
      assert Project(a, s).attachments.Keys == a.attachments.Keys;
      assert Project(b, t).attachments.Keys == b.attachments.Keys;
    }
  }

  /**
    The bytes of an entry. Projecting it counts the attachments before anything
    is written, so too many of them are reported even where something written
    earlier does not fit either; otherwise the first overflow in the order of
    writing is.
   */
  method CanonicalBytesOf(e: Entry, s: Surroundings) returns (result: Result<Text, CanonicalError>)
    requires InRange(e) && WellSized(Project(e, s))
    ensures result.Success? <==> Fits(Project(e, s))
    ensures result.Success? ==> result.value == CanonicalBytes(Project(e, s))
    ensures |e.attachments| >= LIMIT_32 ==> result == Failure(CollectionCountOverflow(|e.attachments|))
    ensures |e.attachments| < LIMIT_32 && result.Failure? ==>
      CheckFields(FieldsOf(Project(e, s))) == Overflowed(result.error)
  {
    AttachmentsCounted(e, s);
    hide Project, Fits, WellSized, CanonicalBytes, CheckFields, FieldsOf;
    if |e.attachments| >= LIMIT_32 {
      return Failure(CollectionCountOverflow(|e.attachments|));
    }
    result := CanonicalEntryBytes(Project(e, s));
  }

  lemma AttachmentsCounted(e: Entry, s: Surroundings)
    requires InRange(e)
    ensures |Project(e, s).attachments| == |e.attachments|
    ensures Fits(Project(e, s)) ==> |e.attachments| < LIMIT_32
  {
    assert Project(e, s).attachments.Keys == e.attachments.Keys;
    SameSize(e.attachments, Project(e, s).attachments);
    hide Project, Fits;
    if Fits(Project(e, s)) {
      AttachmentsFit(Project(e, s));
    }
  }

  lemma AttachmentsFit(p: EntryReference)
    requires Fits(p)
    ensures |p.attachments| < LIMIT_32
  {
    hide NameFields, ProtectionFields, LookFields, TimeFields, LastFields;
    var field := AttachmentsField(p.attachments);
    assert CollectionFields(p)[2] == field;
    assert field in FieldsOf(p);
    assert FieldFits(field);
  }

  /** The scan over all blocks keeps the last item of each key. */
  method CollectDataItems(blocks: seq<CD.Block>) returns (items: map<Text, CD.Item>)
    ensures items == CD.View(blocks)
  {
    items := map[];
    for i := 0 to |blocks|
      invariant items == CD.View(blocks[..i])
    {
      var list := blocks[i].items;
      assert blocks[..i + 1][..i] == blocks[..i] && blocks[..i + 1][i] == blocks[i];
      assert items == CD.View(blocks[..i]) + CD.ViewItems(list[..0]);
      for j := 0 to |list|
        invariant items == CD.View(blocks[..i]) + CD.ViewItems(list[..j])
      {
        assert list[..j + 1][..j] == list[..j];
        items := items[list[j].key := list[j]];
      }
      assert list[..|list|] == list;
    }
    assert blocks[..|blocks|] == blocks;
  }
}
