/** The attributes of an entry with its credentials written over them. */
module Attributes {
  import opened Wrappers
  import opened TextOrder
  import opened PercentCoding
  import opened Model
  import opened FieldMerge
  import opened AttributeKeys
  import opened Otpauth
  import opened OtpauthRoundTrip
  import opened OtpauthLabels

  type Fields = map<Text, CustomField>

  // ---- The TOTP that attributes spell ----

  function AttributeAlgorithm(a: TotpAlgorithm): Text {
    match a
    case Sha1 => "HMAC-SHA-1"
    case Sha256 => "HMAC-SHA-256"
    case Sha512 => "HMAC-SHA-512"
  }

  function ParseAttributeAlgorithm(s: Text): Option<TotpAlgorithm> {
    if EqualIgnoringCase(s, "HMAC-SHA-1") then Some(Sha1)
    else if EqualIgnoringCase(s, "HMAC-SHA-256") then Some(Sha256)
    else if EqualIgnoringCase(s, "HMAC-SHA-512") then Some(Sha512)
    else None
  }

  /** A present discrete parameter must spell the value the URI gives. */
  predicate PresentMatch(fields: Fields, spec: TotpSpec) {
    && (TIME_ALGORITHM in fields ==> ParseAttributeAlgorithm(fields[TIME_ALGORITHM].value) == Some(spec.algorithm))
    && (TIME_LENGTH in fields ==> ParseNumber(fields[TIME_LENGTH].value, U32_LIMIT) == Some(spec.digits))
    && (TIME_PERIOD in fields ==> ParseNumber(fields[TIME_PERIOD].value, U64_LIMIT) == Some(spec.periodSeconds))
  }

  /** Beside a discrete secret, absent parameters stand for their defaults. */
  predicate DiscreteMatch(fields: Fields, spec: TotpSpec) {
    && TIME_SECRET in fields && fields[TIME_SECRET].value == spec.secretBase32
    && PresentMatch(fields, spec)
    && (TIME_ALGORITHM !in fields ==> spec.algorithm == Sha1)
    && (TIME_LENGTH !in fields ==> spec.digits == 6)
    && (TIME_PERIOD !in fields ==> spec.periodSeconds == 30)
  }

  predicate HasUnprojectableKey(fields: Fields) {
    exists key | key in fields :: IsTotpKey(key) && !IsProjectableTotpKey(key)
  }

  function TotpFrom(fields: Fields): Option<TotpSpec> {
    if HasUnprojectableKey(fields) || OTP !in fields then None
    else
      match ParseOtpauth(fields[OTP].value)
      case Failure(_) => None
      case Success(spec) =>
        if (if TIME_SECRET in fields then DiscreteMatch(fields, spec) else PresentMatch(fields, spec)) then Some(spec)
        else None
  }

  // ---- The passkey that attributes spell ----

  function ParseFlag(field: Option<CustomField>): Option<bool> {
    match field
    case None => Some(false)
    case Some(f) =>
      if f.value == "0" || EqualIgnoringCase(f.value, "false") then Some(false)
      else if f.value == "1" || EqualIgnoringCase(f.value, "true") then Some(true)
      else None
  }

  function OptionalValue(fields: Fields, key: Text): Option<Text> {
    if key in fields then Some(fields[key].value) else None
  }

  function PasskeyFrom(fields: Fields): Option<PasskeyRecord> {
    var be, bs := ParseFlag(Get(fields, FLAG_BE)), ParseFlag(Get(fields, FLAG_BS));
    if USERNAME in fields && CREDENTIAL_ID in fields && PRIVATE_KEY_PEM in fields && RELYING_PARTY in fields
       && be.Some? && bs.Some? then
      Some(PasskeyRecord(
        fields[USERNAME].value, fields[CREDENTIAL_ID].value, OptionalValue(fields, GENERATED_USER_ID),
        fields[PRIVATE_KEY_PEM].value, fields[RELYING_PARTY].value, OptionalValue(fields, USER_HANDLE),
        be.value, bs.value))
    else None
  }

  // ---- What credentials write ----

  function TotpFields(title: Text, username: Text, spec: TotpSpec): Fields {
    map[OTP := CustomField(PrintUri(title, username, spec), true),
        TIME_SECRET := CustomField(spec.secretBase32, true),
        TIME_ALGORITHM := CustomField(AttributeAlgorithm(spec.algorithm), false),
        TIME_LENGTH := CustomField(Decimal(spec.digits), false),
        TIME_PERIOD := CustomField(Decimal(spec.periodSeconds), false)]
  }

  function Flag(b: bool): Text {
    if b then "1" else "0"
  }

  function OptionalField(key: Text, value: Option<Text>, isProtected: bool): Fields {
    if value.Some? then map[key := CustomField(value.value, isProtected)] else map[]
  }

  /** The passkey's fields in the order they are written. */
  function PasskeyFields(p: PasskeyRecord): Fields {
    map[USERNAME := CustomField(p.username, false), CREDENTIAL_ID := CustomField(p.credentialId, true)]
    + OptionalField(GENERATED_USER_ID, p.generatedUserId, false)
    + map[PRIVATE_KEY_PEM := CustomField(p.privateKeyPem, true), RELYING_PARTY := CustomField(p.relyingParty, false)]
    + OptionalField(USER_HANDLE, p.userHandle, true)
    + map[FLAG_BE := CustomField(Flag(p.backupEligible), false), FLAG_BS := CustomField(Flag(p.backupState), false)]
  }

  // ---- The materialised view ----

  datatype Materialized = Materialized(fields: Fields, hasProjectablePasskey: bool)

  function EffectiveTotp(e: Entry): Option<TotpSpec> {
    if e.totp.Some? then e.totp else TotpFrom(e.attributes)
  }

  function EffectivePasskey(e: Entry): Option<PasskeyRecord> {
    if e.passkey.Some? then e.passkey else PasskeyFrom(e.attributes)
  }

  function ProtectTotpSecrets(fields: Fields): Fields {
    map key | key in fields :: if IsTotpSecretKey(key) then fields[key].(isProtected := true) else fields[key]
  }

  function ProtectPasskeySecrets(fields: Fields): Fields {
    map key | key in fields :: if IsSensitivePasskeyKey(key) then fields[key].(isProtected := true) else fields[key]
  }

  function WithTotp(fields: Fields, title: Text, username: Text, totp: Option<TotpSpec>): Fields {
    if totp.Some? then
      (map key | key in fields && !IsTotpKey(key) :: fields[key]) + TotpFields(title, username, totp.value)
    else ProtectTotpSecrets(fields)
  }

  function WithPasskey(fields: Fields, passkey: Option<PasskeyRecord>): Fields {
    if passkey.Some? then
      (map key | key in fields && !IsPasskeyKey(key) :: fields[key]) + PasskeyFields(passkey.value)
    else ProtectPasskeySecrets(fields)
  }

  function Materialize(e: Entry): Materialized {
    Materialized(WithPasskey(WithTotp(e.attributes, e.title, e.username, EffectiveTotp(e)), EffectivePasskey(e)),
                 EffectivePasskey(e).Some?)
  }

  // ---- Each credential owns its keys ----

  /** Both maps hold the same values under the keys of one range, whatever their protection. */
  ghost predicate SameTotpValues(a: Fields, b: Fields) {
    forall key :: IsTotpKey(key) ==> OptionalValue(a, key) == OptionalValue(b, key)
  }

  ghost predicate SamePasskeyValues(a: Fields, b: Fields) {
    forall key :: IsPasskeyKey(key) ==> OptionalValue(a, key) == OptionalValue(b, key)
  }

  lemma TotpFromValues(a: Fields, b: Fields)
    requires SameTotpValues(a, b)
    ensures TotpFrom(a) == TotpFrom(b)
  {
    assert OptionalValue(a, OTP) == OptionalValue(b, OTP);
    assert OptionalValue(a, TIME_SECRET) == OptionalValue(b, TIME_SECRET);
    assert OptionalValue(a, TIME_ALGORITHM) == OptionalValue(b, TIME_ALGORITHM);
    assert OptionalValue(a, TIME_LENGTH) == OptionalValue(b, TIME_LENGTH);
    assert OptionalValue(a, TIME_PERIOD) == OptionalValue(b, TIME_PERIOD);
    if HasUnprojectableKey(a) {
      UnprojectableFromValues(a, b);
    } else if HasUnprojectableKey(b) {
      UnprojectableFromValues(b, a);
    }
  }

  lemma UnprojectableFromValues(a: Fields, b: Fields)
    requires SameTotpValues(a, b) && HasUnprojectableKey(a)
    ensures HasUnprojectableKey(b)
  {
    var key :| key in a && IsTotpKey(key) && !IsProjectableTotpKey(key);
    assert OptionalValue(a, key) == OptionalValue(b, key);
  }

  lemma PasskeyFromValues(a: Fields, b: Fields)
    requires SamePasskeyValues(a, b)
    ensures PasskeyFrom(a) == PasskeyFrom(b)
  {
    assert OptionalValue(a, USERNAME) == OptionalValue(b, USERNAME);
    assert OptionalValue(a, CREDENTIAL_ID) == OptionalValue(b, CREDENTIAL_ID);
    assert OptionalValue(a, GENERATED_USER_ID) == OptionalValue(b, GENERATED_USER_ID);
    assert OptionalValue(a, PRIVATE_KEY_PEM) == OptionalValue(b, PRIVATE_KEY_PEM);
    assert OptionalValue(a, RELYING_PARTY) == OptionalValue(b, RELYING_PARTY);
    assert OptionalValue(a, USER_HANDLE) == OptionalValue(b, USER_HANDLE);
    assert OptionalValue(a, FLAG_BE) == OptionalValue(b, FLAG_BE);
    assert OptionalValue(a, FLAG_BS) == OptionalValue(b, FLAG_BS);
  }

  lemma AlgorithmSpelled(a: TotpAlgorithm)
    ensures ParseAttributeAlgorithm(AttributeAlgorithm(a)) == Some(a)
  {
    var s := AttributeAlgorithm(a);
    assert |"HMAC-SHA-1"| == 10 && |"HMAC-SHA-256"| == 12 && |"HMAC-SHA-512"| == 12;
    assert Upper("HMAC-SHA-256")[9] == '2' && Upper("HMAC-SHA-512")[9] == '5';
    assert |Upper(s)| == |s|;
  }

  /** What a TOTP writes is read back as that TOTP. */
  lemma TotpReadsBack(title: Text, username: Text, spec: TotpSpec)
    requires Representable(spec)
    ensures TotpFrom(TotpFields(title, username, spec)) == Some(spec)
  {
    hide PrintUri, ParseOtpauth, ParseNumber, Decimal, ParseAttributeAlgorithm, AttributeAlgorithm;
    var fields := TotpFields(title, username, spec);
    TotpKeysDiffer();
    ParseOfPrint(title, username, spec);
    AlgorithmSpelled(spec.algorithm);
    ParseOfDecimal(spec.digits, U32_LIMIT);
    ParseOfDecimal(spec.periodSeconds, U64_LIMIT);
    assert fields.Keys == {OTP, TIME_SECRET, TIME_ALGORITHM, TIME_LENGTH, TIME_PERIOD};
    assert fields[OTP].value == PrintUri(title, username, spec);
    assert fields[TIME_SECRET].value == spec.secretBase32;
    assert DiscreteMatch(fields, spec);
  }

  lemma FlagReadsBack(b: bool)
    ensures ParseFlag(Some(CustomField(Flag(b), false))) == Some(b)
  {
    assert |Upper("0")| == 1 && |Upper("1")| == 1 && |Upper("false")| == 5 && |Upper("true")| == 4;
    assert "0"[0] == '0' && "1"[0] == '1';
  }

  lemma PasskeyFieldValues(p: PasskeyRecord)
    ensures var fields := PasskeyFields(p);
      && Get(fields, USERNAME) == Some(CustomField(p.username, false))
      && Get(fields, CREDENTIAL_ID) == Some(CustomField(p.credentialId, true))
      && Get(fields, PRIVATE_KEY_PEM) == Some(CustomField(p.privateKeyPem, true))
      && Get(fields, RELYING_PARTY) == Some(CustomField(p.relyingParty, false))
      && Get(fields, FLAG_BE) == Some(CustomField(Flag(p.backupEligible), false))
      && Get(fields, FLAG_BS) == Some(CustomField(Flag(p.backupState), false))
  {
    hide Flag;
    PasskeyKeysDiffer();
  }

  lemma PasskeyOptionalValues(p: PasskeyRecord)
    ensures OptionalValue(PasskeyFields(p), GENERATED_USER_ID) == p.generatedUserId
    ensures OptionalValue(PasskeyFields(p), USER_HANDLE) == p.userHandle
  {
    hide Flag;
    PasskeyKeysDiffer();
  }

  /** What a passkey writes is read back as that passkey. */
  lemma PasskeyReadsBack(p: PasskeyRecord)
    ensures PasskeyFrom(PasskeyFields(p)) == Some(p)
  {
    hide ParseFlag, Flag, PasskeyFields;
    PasskeyFieldValues(p);
    PasskeyOptionalValues(p);
    FlagReadsBack(p.backupEligible);
    FlagReadsBack(p.backupState);
  }

  // ---- Storing the view and materialising again ----

  lemma TotpFieldKeys(title: Text, username: Text, spec: TotpSpec, key: Text)
    ensures key in TotpFields(title, username, spec) <==> IsProjectableTotpKey(key)
  {
  }

  lemma PasskeyFieldKeys(p: PasskeyRecord, key: Text)
    ensures key in PasskeyFields(p) ==> IsPasskeyKey(key)
  {
  }

  /** The overlay of one credential, key by key. */
  lemma WithTotpAt(fields: Fields, title: Text, username: Text, totp: Option<TotpSpec>, key: Text)
    ensures Get(WithTotp(fields, title, username, totp), key) ==
      if !IsTotpKey(key) then Get(fields, key)
      else if totp.Some? then Get(TotpFields(title, username, totp.value), key)
      else if key in fields && IsTotpSecretKey(key) then Some(fields[key].(isProtected := true))
      else Get(fields, key)
  {
    if totp.Some? {
      TotpFieldKeys(title, username, totp.value, key);
    }
  }

  lemma WithPasskeyAt(fields: Fields, passkey: Option<PasskeyRecord>, key: Text)
    ensures Get(WithPasskey(fields, passkey), key) ==
      if !IsPasskeyKey(key) then Get(fields, key)
      else if passkey.Some? then Get(PasskeyFields(passkey.value), key)
      else if key in fields && IsSensitivePasskeyKey(key) then Some(fields[key].(isProtected := true))
      else Get(fields, key)
  {
    if passkey.Some? {
      PasskeyFieldKeys(passkey.value, key);
    }
  }

  lemma SameAtEveryKey(a: Fields, b: Fields)
    requires forall key :: Get(a, key) == Get(b, key)
    ensures a == b
  {
    forall key ensures key in a <==> key in b {
      assert Get(a, key) == Get(b, key);
    }
    forall key | key in a ensures a[key] == b[key] {
      assert Get(a, key) == Get(b, key);
    }
  }

  /** Writing a credential again over a view that already shows it changes nothing. */
  lemma OverlaysAbsorbed(e: Entry)
    ensures var m := Materialize(e).fields;
      && WithTotp(m, e.title, e.username, EffectiveTotp(e)) == m
      && WithPasskey(m, EffectivePasskey(e)) == m
  {
    var totp, passkey := EffectiveTotp(e), EffectivePasskey(e);
    var w := WithTotp(e.attributes, e.title, e.username, totp);
    var m := WithPasskey(w, passkey);
    forall key ensures Get(WithTotp(m, e.title, e.username, totp), key) == Get(m, key) {
      RangesDisjoint(key);
      WithTotpAt(e.attributes, e.title, e.username, totp, key);
      WithPasskeyAt(w, passkey, key);
      WithTotpAt(m, e.title, e.username, totp, key);
    }
    SameAtEveryKey(WithTotp(m, e.title, e.username, totp), m);
    forall key ensures Get(WithPasskey(m, passkey), key) == Get(m, key) {
      WithPasskeyAt(w, passkey, key);
      WithPasskeyAt(m, passkey, key);
    }
    SameAtEveryKey(WithPasskey(m, passkey), m);
  }

  predicate PrintableTotp(e: Entry) {
    e.totp.Some? ==> Representable(e.totp.value)
  }

  lemma EffectiveTotpIsRepresentable(e: Entry)
    requires PrintableTotp(e) && EffectiveTotp(e).Some?
    ensures Representable(EffectiveTotp(e).value)
  {
    if e.totp.None? {
      AcceptedIsRepresentable(e.attributes[OTP].value);
    }
  }

  /** Where the view's TOTP keys come from: the projection if there is one, else the attributes. */
  function TotpSource(e: Entry): Fields {
    if EffectiveTotp(e).Some? then TotpFields(e.title, e.username, EffectiveTotp(e).value) else e.attributes
  }

  lemma ViewTotpIsSource(e: Entry)
    ensures TotpFrom(Materialize(e).fields) == TotpFrom(TotpSource(e))
  {
    var totp, passkey := EffectiveTotp(e), EffectivePasskey(e);
    var w := WithTotp(e.attributes, e.title, e.username, totp);
    var m := WithPasskey(w, passkey);
    forall key | IsTotpKey(key) ensures OptionalValue(m, key) == OptionalValue(TotpSource(e), key) {
      RangesDisjoint(key);
      WithTotpAt(e.attributes, e.title, e.username, totp, key);
      WithPasskeyAt(w, passkey, key);
      assert Get(m, key) == Get(w, key);
    }
    TotpFromValues(m, TotpSource(e));
  }

  /** The materialised attributes spell the entry's own TOTP exactly when that has the form that survives printing. */
  lemma ViewSpellsTotp(e: Entry)
    ensures TotpFrom(Materialize(e).fields) == EffectiveTotp(e) <==> PrintableTotp(e)
  {
    hide Materialize, ParseOtpauth, PrintUri, Representable;
    ViewTotpIsSource(e);
    if EffectiveTotp(e).Some? {
      var spec := EffectiveTotp(e).value;
      if PrintableTotp(e) {
        EffectiveTotpIsRepresentable(e);
        TotpReadsBack(e.title, e.username, spec);
      } else if TotpFrom(TotpSource(e)) == Some(spec) {
        AcceptedIsRepresentable(TotpSource(e)[OTP].value);
      }
    }
  }

  /** The materialised attributes spell the entry's own passkey. */
  lemma ViewSpellsPasskey(e: Entry)
    ensures PasskeyFrom(Materialize(e).fields) == EffectivePasskey(e)
  {
    var totp, passkey := EffectiveTotp(e), EffectivePasskey(e);
    var w := WithTotp(e.attributes, e.title, e.username, totp);
    var m := WithPasskey(w, passkey);
    var source := if passkey.Some? then PasskeyFields(passkey.value) else e.attributes;
    forall key | IsPasskeyKey(key) ensures OptionalValue(m, key) == OptionalValue(source, key) {
      RangesDisjoint(key);
      WithTotpAt(e.attributes, e.title, e.username, totp, key);
      WithPasskeyAt(w, passkey, key);
      assert Get(w, key) == Get(e.attributes, key);
    }
    PasskeyFromValues(m, source);
    if passkey.Some? {
      PasskeyReadsBack(passkey.value);
    }
  }

  /** The entry with its view stored as plain attributes and both projections cleared. */
  function Stored(e: Entry): Entry {
    e.(attributes := Materialize(e).fields, totp := None, passkey := None)
  }

  // ---- When storing the view keeps it ----

  /** What the program's types guarantee of a projected TOTP. */
  predicate TypedTotp(e: Entry) {
    e.totp.Some? ==> Typed(e.title, e.username, e.totp.value)
  }

  /** Printing the projected TOTP, reading it back and printing it again would spell another label. */
  predicate ShiftsLabel(e: Entry) {
    e.totp.Some? && LabelShifts(e.title, e.username, e.totp.value)
  }

  /** What a TOTP writes is read back as its URI parses. */
  lemma TotpReadsAsParsed(title: Text, username: Text, spec: TotpSpec)
    requires Typed(title, username, spec)
    ensures TotpFrom(TotpFields(title, username, spec)) ==
      match ParseOtpauth(PrintUri(title, username, spec))
      case Success(parsed) => Some(parsed)
      case Failure(_) => None
  {
    hide PrintUri, ParseOtpauth, ParseNumber, Decimal, ParseAttributeAlgorithm, AttributeAlgorithm, ReadBack, ValidUtf8;
    var fields := TotpFields(title, username, spec);
    TotpKeysDiffer();
    ParseOfAnyPrint(title, username, spec);
    AlgorithmSpelled(spec.algorithm);
    ParseOfDecimal(spec.digits, U32_LIMIT);
    ParseOfDecimal(spec.periodSeconds, U64_LIMIT);
    assert fields.Keys == {OTP, TIME_SECRET, TIME_ALGORITHM, TIME_LENGTH, TIME_PERIOD};
    assert fields[OTP].value == PrintUri(title, username, spec);
    assert fields[TIME_SECRET].value == spec.secretBase32;
    assert DiscreteMatch(fields, spec);
  }

  /** Two specifications that differ only in their names write the same fields exactly when they print the same URI. */
  lemma SameFieldsSameUri(title: Text, username: Text, a: TotpSpec, b: TotpSpec)
    requires b == a.(issuer := b.issuer, accountName := b.accountName)
    ensures TotpFields(title, username, a) == TotpFields(title, username, b)
       <==> PrintUri(title, username, a) == PrintUri(title, username, b)
  {
    hide PrintUri, Decimal, AttributeAlgorithm;
    TotpKeysDiffer();
    assert TotpFields(title, username, a)[OTP].value == PrintUri(title, username, a);
    assert TotpFields(title, username, b)[OTP].value == PrintUri(title, username, b);
  }

  /** The view of a projected TOTP holds its written fields, and they are protected already. */
  lemma ViewHoldsTotp(e: Entry, key: Text)
    requires e.totp.Some? && IsTotpKey(key)
    ensures Get(Materialize(e).fields, key) == Get(TotpFields(e.title, e.username, e.totp.value), key)
    ensures key in Materialize(e).fields && IsTotpSecretKey(key) ==> Materialize(e).fields[key].isProtected
  {
    hide PrintUri, Decimal, AttributeAlgorithm, PasskeyFrom, PasskeyFields;
    RangesDisjoint(key);
    var w := WithTotp(e.attributes, e.title, e.username, e.totp);
    WithTotpAt(e.attributes, e.title, e.username, e.totp, key);
    WithPasskeyAt(w, EffectivePasskey(e), key);
    TotpKeysDiffer();
  }

  /** Overlaying what the stored view spells changes nothing exactly when the label does not shift. */
  lemma StoredTotpOverlay(e: Entry)
    requires TypedTotp(e) && e.totp.Some?
    ensures var m := Materialize(e).fields;
      (forall key :: IsTotpKey(key) ==>
         Get(WithTotp(m, e.title, e.username, TotpFrom(m)), key) == Get(m, key)) <==> !ShiftsLabel(e)
  {
    hide PrintUri, ParseOtpauth, Typed, LabelShifts, Materialize, ReadBack, TotpFields, TotpFrom, LabelRefused;
    var m, spec := Materialize(e).fields, e.totp.value;
    var again := TotpFrom(m);
    ViewTotpIsSource(e);
    TotpReadsAsParsed(e.title, e.username, spec);
    ParseOfAnyPrint(e.title, e.username, spec);
    PrintedAlike(e.title, e.username, spec);
    forall key | IsTotpKey(key)
      ensures Get(m, key) == Get(TotpFields(e.title, e.username, spec), key)
      ensures Get(WithTotp(m, e.title, e.username, again), key)
           == if again.Some? then Get(TotpFields(e.title, e.username, again.value), key) else Get(m, key)
    {
      ViewHoldsTotp(e, key);
      WithTotpAt(m, e.title, e.username, again, key);
    }
    if again.Some? {
      SameFieldsSameUri(e.title, e.username, spec, again.value);
      OnlyTotpKeys(e.title, e.username, spec, again.value);
    }
  }

  /** The written fields are equal when they agree at the TOTP keys. */
  lemma OnlyTotpKeys(title: Text, username: Text, a: TotpSpec, b: TotpSpec)
    ensures (forall key :: IsTotpKey(key) ==>
               Get(TotpFields(title, username, a), key) == Get(TotpFields(title, username, b), key))
       <==> TotpFields(title, username, a) == TotpFields(title, username, b)
  {
    hide TotpFields;
    var x, y := TotpFields(title, username, a), TotpFields(title, username, b);
    if forall key :: IsTotpKey(key) ==> Get(x, key) == Get(y, key) {
      forall key ensures Get(x, key) == Get(y, key) {
        TotpFieldKeys(title, username, a, key);
        TotpFieldKeys(title, username, b, key);
      }
      SameAtEveryKey(x, y);
    }
  }

  /** A second overlay of both credentials, key by key. */
  lemma StoredAt(e: Entry, key: Text)
    ensures var m := Materialize(e).fields;
      Get(Materialize(Stored(e)).fields, key) ==
        if IsTotpKey(key) then Get(WithTotp(m, e.title, e.username, TotpFrom(m)), key) else Get(m, key)
    ensures Materialize(Stored(e)).hasProjectablePasskey == Materialize(e).hasProjectablePasskey
  {
    hide TotpFrom, PasskeyFrom, PasskeyFields, TotpFields;
    var m := Materialize(e).fields;
    var w := WithTotp(m, e.title, e.username, TotpFrom(m));
    ViewSpellsPasskey(e);
    OverlaysAbsorbed(e);
    RangesDisjoint(key);
    WithPasskeyAt(w, EffectivePasskey(e), key);
    WithPasskeyAt(m, EffectivePasskey(e), key);
    WithTotpAt(m, e.title, e.username, TotpFrom(m), key);
  }

  /**
    Storing the view changes nothing about the view, except for a projected TOTP
    whose printed label reads back as another one: then it always does.
   */
  lemma MaterializeIsIdempotent(e: Entry)
    requires TypedTotp(e)
    ensures Materialize(Stored(e)) == Materialize(e) <==> !ShiftsLabel(e)
  {
    hide Materialize, WithTotp, TotpFrom, LabelShifts, Typed;
    var m := Materialize(e).fields;
    var again := WithTotp(m, e.title, e.username, TotpFrom(m));
    forall key
      ensures Get(Materialize(Stored(e)).fields, key) == if IsTotpKey(key) then Get(again, key) else Get(m, key)
    {
      StoredAt(e, key);
    }
    StoredAt(e, []);
    if e.totp.Some? {
      StoredTotpOverlay(e);
    } else {
      ViewSpellsTotp(e);
      OverlaysAbsorbed(e);
    }
    if forall key :: IsTotpKey(key) ==> Get(again, key) == Get(m, key) {
      SameAtEveryKey(Materialize(Stored(e)).fields, m);
    }
  }

  /** Such entries exist, whatever else they hold: storing makes an issuer of the account's part before the colon. */
  lemma ShiftedView(e: Entry)
    requires ValidUtf8(e.title) && ValidUtf8(e.username) && e.totp == Some(COLON_ACCOUNT)
    ensures TypedTotp(e) && ShiftsLabel(e) && Materialize(Stored(e)) != Materialize(e)
    ensures EffectiveTotp(Stored(e)) == Some(COLON_ACCOUNT.(issuer := Some("a"), accountName := Some("b")))
  {
    hide Materialize, LabelShifts, Typed, PrintUri, ParseOtpauth, TotpFrom, TotpFields;
    ColonAccountShifts(e.title, e.username);
    MaterializeIsIdempotent(e);
    ViewTotpIsSource(e);
    TotpReadsAsParsed(e.title, e.username, COLON_ACCOUNT);
  }
}
