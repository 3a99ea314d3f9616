/** What attributes say about credentials, and what credentials write into them, by the names of the attributes. */
module AttributeReading {
  import opened Wrappers
  import opened TextOrder
  import opened PercentCoding
  import opened Model
  import opened FieldMerge
  import opened AttributeKeys
  import opened Otpauth
  import opened OtpauthReading
  import opened Attributes

  // ---- Names ----

  const URI_NAME: Text := "otp"
  const SECRET_NAME: Text := "TimeOtp-Secret-Base32"
  const ALGORITHM_NAME: Text := "TimeOtp-Algorithm"
  const LENGTH_NAME: Text := "TimeOtp-Length"
  const PERIOD_NAME: Text := "TimeOtp-Period"

  ghost predicate OtherTotpName(key: Text) {
    || key == "TimeOtp-Secret" || key == "TimeOtp-Secret-Hex" || key == "TimeOtp-Secret-Base64"
    || key == "HmacOtp-Secret" || key == "HmacOtp-Secret-Hex" || key == "HmacOtp-Secret-Base32"
    || key == "HmacOtp-Secret-Base64" || key == "HmacOtp-Counter"
  }

  ghost predicate TotpName(key: Text) {
    key == URI_NAME || key == SECRET_NAME || key == ALGORITHM_NAME || key == LENGTH_NAME || key == PERIOD_NAME
    || OtherTotpName(key)
  }

  lemma TotpNamesExactly(key: Text)
    ensures IsTotpKey(key) <==> TotpName(key)
    ensures IsTotpKey(key) && !IsProjectableTotpKey(key) <==> OtherTotpName(key)
    ensures IsTotpSecretKey(key) <==> key == URI_NAME || key == SECRET_NAME || OtherTotpName(key)
  {
    assert |OTP| == 3 && |TIME_SECRET| == 21 && |TIME_ALGORITHM| == 17 && |TIME_LENGTH| == |TIME_PERIOD| == 14;
    if OtherTotpName(key) {
      OtherLengths(key);
    }
    TotpKeysDiffer();
  }

  lemma OtherLengths(key: Text)
    requires OtherTotpName(key)
    ensures key != OTP && key != TIME_SECRET && key != TIME_ALGORITHM && key != TIME_LENGTH && key != TIME_PERIOD
  {
    assert |"TimeOtp-Secret"| == 14 && "TimeOtp-Secret"[8] == 'S' && TIME_LENGTH[8] == 'L' && TIME_PERIOD[8] == 'P';
    assert |"TimeOtp-Secret-Hex"| == 18 && |"TimeOtp-Secret-Base64"| == 21 && "TimeOtp-Secret-Base64"[19] == '6';
    assert TIME_SECRET[19] == '3' && TIME_SECRET[0] == 'T' && TIME_ALGORITHM[0] == 'T' && TIME_LENGTH[0] == 'T';
    assert "HmacOtp-Secret"[0] == 'H' && "HmacOtp-Secret-Hex"[0] == 'H' && "HmacOtp-Secret-Base32"[0] == 'H';
    assert "HmacOtp-Secret-Base64"[0] == 'H' && "HmacOtp-Counter"[0] == 'H' && TIME_PERIOD[0] == 'T' && |OTP| == 3;
  }

  const USERNAME_NAME: Text := "KPEX_PASSKEY_USERNAME"
  const CREDENTIAL_NAME: Text := "KPEX_PASSKEY_CREDENTIAL_ID"
  const GENERATED_NAME: Text := "KPEX_PASSKEY_GENERATED_USER_ID"
  const PRIVATE_KEY_NAME: Text := "KPEX_PASSKEY_PRIVATE_KEY_PEM"
  const PARTY_NAME: Text := "KPEX_PASSKEY_RELYING_PARTY"
  const HANDLE_NAME: Text := "KPEX_PASSKEY_USER_HANDLE"
  const ELIGIBLE_NAME: Text := "KPEX_PASSKEY_FLAG_BE"
  const BACKUP_NAME: Text := "KPEX_PASSKEY_FLAG_BS"

  ghost predicate PasskeySecretName(key: Text) {
    key == CREDENTIAL_NAME || key == GENERATED_NAME || key == PRIVATE_KEY_NAME || key == HANDLE_NAME
  }

  ghost predicate PasskeyName(key: Text) {
    PasskeySecretName(key) || key == USERNAME_NAME || key == PARTY_NAME || key == ELIGIBLE_NAME || key == BACKUP_NAME
  }

  lemma PasskeyNamesExactly(key: Text)
    ensures IsPasskeyKey(key) <==> PasskeyName(key)
    ensures IsSensitivePasskeyKey(key) <==> PasskeySecretName(key)
  {
  }

  // ---- The TOTP that attributes say ----

  ghost predicate SpellsAttributeAlgorithm(value: Text, a: TotpAlgorithm) {
    match a
    case Sha1 => SameLetters(value, "HMAC-SHA-1")
    case Sha256 => SameLetters(value, "HMAC-SHA-256")
    case Sha512 => SameLetters(value, "HMAC-SHA-512")
  }

  lemma AttributeAlgorithmExactly(value: Text, a: TotpAlgorithm)
    ensures ParseAttributeAlgorithm(value) == Some(a) <==> SpellsAttributeAlgorithm(value, a)
  {
    hide SameLetters, Upper;
    forall name | name in {"HMAC-SHA-1", "HMAC-SHA-256", "HMAC-SHA-512"} ensures SameLetters(value, name) <==> Upper(value) == name {
      SameLettersUpper(value, name);
      NamesUpper(name);
    }
    assert |"HMAC-SHA-1"| == 10 && |"HMAC-SHA-256"| == |"HMAC-SHA-512"| == 12;
    assert "HMAC-SHA-512"[9] == '5' && "HMAC-SHA-256"[9] == '2';
    NamesUpper("HMAC-SHA-1");
    NamesUpper("HMAC-SHA-256");
    NamesUpper("HMAC-SHA-512");
  }

  /** A present parameter spells the value; beside a discrete secret an absent one stands for its default. */
  ghost predicate ParametersSay(fields: Fields, spec: TotpSpec) {
    && (if ALGORITHM_NAME in fields then SpellsAttributeAlgorithm(fields[ALGORITHM_NAME].value, spec.algorithm)
        else SECRET_NAME in fields ==> spec.algorithm == Sha1)
    && (if LENGTH_NAME in fields then SpellsNumber(fields[LENGTH_NAME].value, spec.digits) && spec.digits < 0x1_0000_0000
        else SECRET_NAME in fields ==> spec.digits == 6)
    && (if PERIOD_NAME in fields then
          SpellsNumber(fields[PERIOD_NAME].value, spec.periodSeconds) && spec.periodSeconds < 0x1_0000_0000_0000_0000
        else SECRET_NAME in fields ==> spec.periodSeconds == 30)
  }

  /** The URI says it, the discrete attributes agree, and none of the other kinds is there. */
  ghost predicate FieldsSayTotp(fields: Fields, spec: TotpSpec) {
    && (forall key :: key in fields ==> !OtherTotpName(key))
    && URI_NAME in fields && UriSays(fields[URI_NAME].value, spec)
    && (SECRET_NAME in fields ==> fields[SECRET_NAME].value == spec.secretBase32)
    && ParametersSay(fields, spec)
  }

  lemma ParametersExactly(fields: Fields, spec: TotpSpec)
    ensures (if TIME_SECRET in fields then DiscreteMatch(fields, spec) else PresentMatch(fields, spec))
       <==> (SECRET_NAME in fields ==> fields[SECRET_NAME].value == spec.secretBase32) && ParametersSay(fields, spec)
  {
    hide SpellsNumber, ParseNumber, SpellsAttributeAlgorithm, ParseAttributeAlgorithm;
    if ALGORITHM_NAME in fields {
      AttributeAlgorithmExactly(fields[ALGORITHM_NAME].value, spec.algorithm);
    }
    if LENGTH_NAME in fields {
      NumberExactly(fields[LENGTH_NAME].value, U32_LIMIT, spec.digits);
    }
    if PERIOD_NAME in fields {
      NumberExactly(fields[PERIOD_NAME].value, U64_LIMIT, spec.periodSeconds);
    }
  }

  /** Attributes are projected to a TOTP exactly when they say it. */
  lemma TotpFromExactly(fields: Fields, spec: TotpSpec)
    ensures TotpFrom(fields) == Some(spec) <==> FieldsSayTotp(fields, spec)
  {
    hide UriSays, ParseOtpauth, DiscreteMatch, PresentMatch, ParametersSay, OtherTotpName, IsTotpKey, IsProjectableTotpKey;
    forall key: Text ensures IsTotpKey(key) && !IsProjectableTotpKey(key) <==> OtherTotpName(key) {
      TotpNamesExactly(key);
    }
    if OTP in fields {
      ParsedExactly(fields[OTP].value, spec);
    }
    ParametersExactly(fields, spec);
  }

  // ---- The passkey that attributes say ----

  ghost predicate SaysFlag(fields: Fields, name: Text, flag: bool) {
    if name !in fields then !flag
    else if flag then fields[name].value == "1" || SameLetters(fields[name].value, "true")
    else fields[name].value == "0" || SameLetters(fields[name].value, "false")
  }

  ghost predicate SaysText(fields: Fields, name: Text, value: Text) {
    name in fields && fields[name].value == value
  }

  ghost predicate SaysOptional(fields: Fields, name: Text, value: Option<Text>) {
    if name in fields then value == Some(fields[name].value) else value == None
  }

  ghost predicate FieldsSayPasskey(fields: Fields, p: PasskeyRecord) {
    && SaysText(fields, USERNAME_NAME, p.username)
    && SaysText(fields, CREDENTIAL_NAME, p.credentialId)
    && SaysOptional(fields, GENERATED_NAME, p.generatedUserId)
    && SaysText(fields, PRIVATE_KEY_NAME, p.privateKeyPem)
    && SaysText(fields, PARTY_NAME, p.relyingParty)
    && SaysOptional(fields, HANDLE_NAME, p.userHandle)
    && SaysFlag(fields, ELIGIBLE_NAME, p.backupEligible)
    && SaysFlag(fields, BACKUP_NAME, p.backupState)
  }

  lemma FlagExactly(fields: Fields, name: Text, flag: bool)
    ensures ParseFlag(Get(fields, name)) == Some(flag) <==> SaysFlag(fields, name, flag)
  {
    if name in fields {
      var value := fields[name].value;
      SameLettersUpper(value, "true");
      SameLettersUpper(value, "false");
      assert |Upper(value)| == |value| && |Upper("true")| == |"true"| == 4 && |Upper("false")| == |"false"| == 5;
      assert |"0"| == |"1"| == 1 && "0"[0] == '0' && "1"[0] == '1';
    }
  }

  /** Attributes are projected to a passkey exactly when they say it. */
  lemma PasskeyFromExactly(fields: Fields, p: PasskeyRecord)
    ensures PasskeyFrom(fields) == Some(p) <==> FieldsSayPasskey(fields, p)
  {
    hide SaysFlag, ParseFlag;
    FlagExactly(fields, ELIGIBLE_NAME, p.backupEligible);
    FlagExactly(fields, BACKUP_NAME, p.backupState);
  }

  // ---- What the view holds ----

  ghost predicate Holds(fields: Fields, name: Text, value: Text, isProtected: bool) {
    name in fields && fields[name] == CustomField(value, isProtected)
  }

  ghost function AttributeWord(a: TotpAlgorithm): Text {
    match a
    case Sha1 => "HMAC-SHA-1"
    case Sha256 => "HMAC-SHA-256"
    case Sha512 => "HMAC-SHA-512"
  }

  /** The five attributes of a TOTP, the first two protected, and no other of its range. */
  ghost predicate ShowsTotp(fields: Fields, title: Text, username: Text, spec: TotpSpec) {
    && Holds(fields, URI_NAME, PrintUri(title, username, spec), true)
    && Holds(fields, SECRET_NAME, spec.secretBase32, true)
    && Holds(fields, ALGORITHM_NAME, AttributeWord(spec.algorithm), false)
    && Holds(fields, LENGTH_NAME, Decimal(spec.digits), false)
    && Holds(fields, PERIOD_NAME, Decimal(spec.periodSeconds), false)
    && forall key :: key in fields ==> !OtherTotpName(key)
  }

  ghost predicate HoldsOptional(fields: Fields, name: Text, value: Option<Text>, isProtected: bool) {
    if value.Some? then Holds(fields, name, value.value, isProtected) else name !in fields
  }

  ghost predicate HoldsFlag(fields: Fields, name: Text, flag: bool) {
    name in fields && fields[name].value == (if flag then "1" else "0") && !fields[name].isProtected
  }

  /** The attributes of a passkey; of what its range calls secret, only a generated user identifier is written unprotected. */
  ghost predicate ShowsPasskey(fields: Fields, p: PasskeyRecord) {
    && Holds(fields, USERNAME_NAME, p.username, false)
    && Holds(fields, CREDENTIAL_NAME, p.credentialId, true)
    && HoldsOptional(fields, GENERATED_NAME, p.generatedUserId, false)
    && Holds(fields, PRIVATE_KEY_NAME, p.privateKeyPem, true)
    && ShowsParty(fields, p)
  }

  ghost predicate ShowsParty(fields: Fields, p: PasskeyRecord) {
    && Holds(fields, PARTY_NAME, p.relyingParty, false)
    && HoldsOptional(fields, HANDLE_NAME, p.userHandle, true)
    && HoldsFlag(fields, ELIGIBLE_NAME, p.backupEligible)
    && HoldsFlag(fields, BACKUP_NAME, p.backupState)
  }

  /** A field as the entry has it, protected where its name asks for it. */
  ghost predicate Shown(before: Fields, after: Fields, key: Text, secret: bool) {
    && (key in after <==> key in before)
    && (key in before ==>
          after[key].value == before[key].value
          && (after[key].isProtected <==> before[key].isProtected || secret))
  }

  /** The entry's own TOTP, or else the one its attributes say. */
  ghost predicate SaysTotp(e: Entry, totp: Option<TotpSpec>) {
    if e.totp.Some? then totp == e.totp
    else if totp.Some? then FieldsSayTotp(e.attributes, totp.value)
    else forall spec :: !FieldsSayTotp(e.attributes, spec)
  }

  ghost predicate SaysPasskey(e: Entry, passkey: Option<PasskeyRecord>) {
    if e.passkey.Some? then passkey == e.passkey
    else if passkey.Some? then FieldsSayPasskey(e.attributes, passkey.value)
    else forall p :: !FieldsSayPasskey(e.attributes, p)
  }

  lemma EffectiveIsSaid(e: Entry, totp: Option<TotpSpec>, passkey: Option<PasskeyRecord>)
    ensures SaysTotp(e, totp) <==> totp == EffectiveTotp(e)
    ensures SaysPasskey(e, passkey) <==> passkey == EffectivePasskey(e)
  {
    hide TotpFrom, PasskeyFrom, FieldsSayTotp, FieldsSayPasskey;
    forall spec ensures TotpFrom(e.attributes) == Some(spec) <==> FieldsSayTotp(e.attributes, spec) {
      TotpFromExactly(e.attributes, spec);
    }
    forall p ensures PasskeyFrom(e.attributes) == Some(p) <==> FieldsSayPasskey(e.attributes, p) {
      PasskeyFromExactly(e.attributes, p);
    }
  }

  lemma FieldsShowTotp(title: Text, username: Text, spec: TotpSpec)
    ensures var fields := TotpFields(title, username, spec);
      ShowsTotp(fields, title, username, spec) && forall key :: key in fields ==> TotpName(key)
  {
    hide PrintUri, Decimal, AttributeAlgorithm, AttributeWord;
    TotpKeysDiffer();
    assert AttributeAlgorithm(spec.algorithm) == AttributeWord(spec.algorithm) by { SameWord(spec.algorithm); }
    var fields := TotpFields(title, username, spec);
    assert fields.Keys == {OTP, TIME_SECRET, TIME_ALGORITHM, TIME_LENGTH, TIME_PERIOD};
    forall key | key in fields ensures !OtherTotpName(key) {
      if OtherTotpName(key) {
        OtherLengths(key);
      }
    }
  }

  lemma SameWord(a: TotpAlgorithm)
    ensures AttributeAlgorithm(a) == AttributeWord(a)
  {
  }

  /** The passkey's fields, piece by piece. */
  ghost predicate Pieces(p: PasskeyRecord, first: Fields, generated: Fields, middle: Fields, handle: Fields, last: Fields) {
    && first == map[USERNAME := CustomField(p.username, false), CREDENTIAL_ID := CustomField(p.credentialId, true)]
    && generated == OptionalField(GENERATED_USER_ID, p.generatedUserId, false)
    && middle == map[PRIVATE_KEY_PEM := CustomField(p.privateKeyPem, true), RELYING_PARTY := CustomField(p.relyingParty, false)]
    && handle == OptionalField(USER_HANDLE, p.userHandle, true)
    && last == map[FLAG_BE := CustomField(Flag(p.backupEligible), false), FLAG_BS := CustomField(Flag(p.backupState), false)]
  }

  lemma PieceKeys(p: PasskeyRecord, first: Fields, generated: Fields, middle: Fields, handle: Fields, last: Fields)
    requires Pieces(p, first, generated, middle, handle, last)
    ensures first.Keys == {USERNAME, CREDENTIAL_ID} && generated.Keys == (if p.generatedUserId.Some? then {GENERATED_USER_ID} else {})
    ensures middle.Keys == {PRIVATE_KEY_PEM, RELYING_PARTY} && handle.Keys == (if p.userHandle.Some? then {USER_HANDLE} else {})
    ensures last.Keys == {FLAG_BE, FLAG_BS}
  {
    hide Flag;
  }

  lemma FieldsShowPasskey(p: PasskeyRecord)
    ensures var fields := PasskeyFields(p);
      ShowsPasskey(fields, p) && forall key :: key in fields ==> PasskeyName(key)
  {
    hide Flag, ShowsParty;
    PasskeyKeysDiffer();
    var first := map[USERNAME := CustomField(p.username, false), CREDENTIAL_ID := CustomField(p.credentialId, true)];
    var generated := OptionalField(GENERATED_USER_ID, p.generatedUserId, false);
    var middle := map[PRIVATE_KEY_PEM := CustomField(p.privateKeyPem, true), RELYING_PARTY := CustomField(p.relyingParty, false)];
    var handle := OptionalField(USER_HANDLE, p.userHandle, true);
    var last := map[FLAG_BE := CustomField(Flag(p.backupEligible), false), FLAG_BS := CustomField(Flag(p.backupState), false)];
    PieceKeys(p, first, generated, middle, handle, last);
    FieldsShowParty(p, first + generated, middle, handle, last);
    assert PasskeyFields(p) == first + generated + middle + handle + last;
  }

  lemma FieldsShowParty(p: PasskeyRecord, before: Fields, middle: Fields, handle: Fields, last: Fields)
    requires middle == map[PRIVATE_KEY_PEM := CustomField(p.privateKeyPem, true), RELYING_PARTY := CustomField(p.relyingParty, false)]
    requires handle == OptionalField(USER_HANDLE, p.userHandle, true) && before.Keys <= {USERNAME, CREDENTIAL_ID, GENERATED_USER_ID}
    requires last == map[FLAG_BE := CustomField(Flag(p.backupEligible), false), FLAG_BS := CustomField(Flag(p.backupState), false)]
    ensures ShowsParty(before + middle + handle + last, p)
  {
    hide Flag;
    PasskeyKeysDiffer();
    FlagWord(p.backupEligible);
    FlagWord(p.backupState);
  }

  lemma FlagWord(b: bool)
    ensures Flag(b) == if b then "1" else "0"
  {
  }

  /** A name's fields after the TOTP has been written over them, or protected. */
  lemma TotpViewAt(e: Entry, totp: Option<TotpSpec>, key: Text)
    ensures var after := WithTotp(e.attributes, e.title, e.username, totp);
      if TotpName(key) then
        if totp.Some? then Get(after, key) == Get(TotpFields(e.title, e.username, totp.value), key)
        else Shown(e.attributes, after, key, key == URI_NAME || key == SECRET_NAME || OtherTotpName(key))
      else Get(after, key) == Get(e.attributes, key)
  {
    hide IsTotpKey, IsTotpSecretKey, OtherTotpName, TotpFields, ShowsTotp;
    TotpNamesExactly(key);
    if totp.Some? {
      FieldsShowTotp(e.title, e.username, totp.value);
      assert key in TotpFields(e.title, e.username, totp.value) ==> TotpName(key);
    }
  }

  lemma PasskeyViewAt(before: Fields, passkey: Option<PasskeyRecord>, key: Text)
    ensures var after := WithPasskey(before, passkey);
      if PasskeyName(key) then
        if passkey.Some? then Get(after, key) == Get(PasskeyFields(passkey.value), key)
        else Shown(before, after, key, PasskeySecretName(key))
      else Get(after, key) == Get(before, key)
  {
    hide IsPasskeyKey, IsSensitivePasskeyKey, PasskeySecretName, PasskeyFields, ShowsPasskey;
    PasskeyNamesExactly(key);
    if passkey.Some? {
      FieldsShowPasskey(passkey.value);
      assert key in PasskeyFields(passkey.value) ==> PasskeyName(key);
    }
  }

  /** At one name: what the credentials say, the entry's own field protected, or that field as it is. */
  ghost predicate ViewAt(e: Entry, fields: Fields, totp: Option<TotpSpec>, passkey: Option<PasskeyRecord>, key: Text) {
    && (TotpName(key) && totp == None ==>
          Shown(e.attributes, fields, key, key == URI_NAME || key == SECRET_NAME || OtherTotpName(key)))
    && (PasskeyName(key) && passkey == None ==> Shown(e.attributes, fields, key, PasskeySecretName(key)))
    && (!TotpName(key) && !PasskeyName(key) ==> Get(fields, key) == Get(e.attributes, key))
  }

  lemma NamesDisjoint(key: Text)
    ensures !(TotpName(key) && PasskeyName(key))
  {
    hide TotpName, PasskeyName, IsTotpKey, IsPasskeyKey;
    RangesDisjoint(key);
    TotpNamesExactly(key);
    PasskeyNamesExactly(key);
  }

  /**
    The view of an entry, by names: the effective TOTP and passkey are shown in
    full and alone in their ranges; without one, what its range calls secret is
    protected; everything else stays as it is.
   */
  lemma ViewExactly(e: Entry, totp: Option<TotpSpec>, passkey: Option<PasskeyRecord>)
    requires SaysTotp(e, totp) && SaysPasskey(e, passkey)
    ensures var view := Materialize(e);
      && (totp.Some? ==> ShowsTotp(view.fields, e.title, e.username, totp.value))
      && (passkey.Some? ==> ShowsPasskey(view.fields, passkey.value))
      && (view.hasProjectablePasskey <==> passkey.Some?)
      && forall key :: ViewAt(e, view.fields, totp, passkey, key)
  {
    hide SaysTotp, SaysPasskey, TotpName, PasskeyName, OtherTotpName, PasskeySecretName, WithTotp, WithPasskey, Shown,
         TotpFields, PasskeyFields, ShowsTotp, ShowsPasskey, EffectiveTotp, EffectivePasskey;
    EffectiveIsSaid(e, totp, passkey);
    var between := WithTotp(e.attributes, e.title, e.username, totp);
    var fields := WithPasskey(between, passkey);
    forall key: Text
      ensures TotpName(key) && totp.Some? ==> Get(fields, key) == Get(TotpFields(e.title, e.username, totp.value), key)
      ensures PasskeyName(key) && passkey.Some? ==> Get(fields, key) == Get(PasskeyFields(passkey.value), key)
      ensures ViewAt(e, fields, totp, passkey, key)
    {
      NamesDisjoint(key);
      TotpViewAt(e, totp, key);
      PasskeyViewAt(between, passkey, key);
      if Get(fields, key) == Get(between, key) {
        SameShown(e.attributes, between, fields, key);
      }
      if Get(between, key) == Get(e.attributes, key) {
        SameShownBefore(e.attributes, between, fields, key);
      }
    }
    if totp.Some? {
      FieldsShowTotp(e.title, e.username, totp.value);
      SameShowsTotp(TotpFields(e.title, e.username, totp.value), fields, e.title, e.username, totp.value);
    }
    if passkey.Some? {
      FieldsShowPasskey(passkey.value);
      SameShowsPasskey(PasskeyFields(passkey.value), fields, passkey.value);
    }
  }

  lemma SameShown(before: Fields, a: Fields, b: Fields, key: Text)
    requires Get(a, key) == Get(b, key)
    ensures forall secret :: Shown(before, a, key, secret) <==> Shown(before, b, key, secret)
  {
  }

  lemma SameShownBefore(a: Fields, b: Fields, after: Fields, key: Text)
    requires Get(a, key) == Get(b, key)
    ensures forall secret :: Shown(a, after, key, secret) <==> Shown(b, after, key, secret)
  {
  }

  lemma SameShowsTotp(a: Fields, b: Fields, title: Text, username: Text, spec: TotpSpec)
    requires ShowsTotp(a, title, username, spec)
    requires forall key: Text :: TotpName(key) ==> Get(b, key) == Get(a, key)
    ensures ShowsTotp(b, title, username, spec)
  {
    hide OtherTotpName, PrintUri, Decimal;
    assert TotpName(URI_NAME) && TotpName(SECRET_NAME) && TotpName(ALGORITHM_NAME) && TotpName(LENGTH_NAME) && TotpName(PERIOD_NAME);
    assert forall key: Text :: OtherTotpName(key) ==> TotpName(key);
  }

  lemma SameShowsPasskey(a: Fields, b: Fields, p: PasskeyRecord)
    requires ShowsPasskey(a, p)
    requires forall key: Text :: PasskeyName(key) ==> Get(b, key) == Get(a, key)
    ensures ShowsPasskey(b, p)
  {
    assert PasskeyName(USERNAME_NAME) && PasskeyName(CREDENTIAL_NAME) && PasskeyName(GENERATED_NAME) && PasskeyName(PRIVATE_KEY_NAME);
    assert PasskeyName(PARTY_NAME) && PasskeyName(HANDLE_NAME) && PasskeyName(ELIGIBLE_NAME) && PasskeyName(BACKUP_NAME);
  }
}
