/** The materialised view built by writing credentials over a field map in place. */
module AttributesInPlace {
  import opened Wrappers
  import opened TextOrder
  import opened Model
  import opened AttributeKeys
  import opened Otpauth
  import opened Attributes

  lemma InsertsJoin(kept: Fields, a: Text, x: CustomField, b: Text, y: CustomField)
    ensures kept[a := x][b := y] == kept + map[a := x, b := y]
  {
  }

  lemma PartsJoin(kept: Fields, a: Fields, b: Fields, c: Fields, d: Fields, e: Fields)
    ensures kept + a + b + c + d + e == kept + (a + b + c + d + e)
  {
    TwoJoin(kept, a, b);
    TwoJoin(kept, a + b, c);
    TwoJoin(kept, a + b + c, d);
    TwoJoin(kept, a + b + c + d, e);
  }

  lemma TwoJoin(a: Fields, b: Fields, c: Fields)
    ensures a + b + c == a + (b + c)
  {
  }

  lemma FiveInsertsJoin(kept: Fields, key: seq<Text>, x: seq<CustomField>)
    requires |key| == |x| == 5
    ensures kept[key[0] := x[0]][key[1] := x[1]][key[2] := x[2]][key[3] := x[3]][key[4] := x[4]]
         == kept + map[key[0] := x[0], key[1] := x[1], key[2] := x[2], key[3] := x[3], key[4] := x[4]]
  {
  }

  class AttributeView {
    var fields: Fields
    var hasProjectablePasskey: bool

    constructor (attributes: Fields)
      ensures fields == attributes && !hasProjectablePasskey
    {
      fields, hasProjectablePasskey := attributes, false;
    }

    method Insert(key: Text, value: Text, isProtected: bool)
      modifies this`fields
      ensures fields == old(fields)[key := CustomField(value, isProtected)]
    {
      fields := fields[key := CustomField(value, isProtected)];
    }

    method InsertOptional(key: Text, value: Option<Text>, isProtected: bool)
      modifies this`fields
      ensures fields == old(fields) + OptionalField(key, value, isProtected)
    {
      if value.Some? {
        Insert(key, value.value, isProtected);
      }
    }

    /** Two fields written one after the other. */
    method InsertTwo(a: Text, x: CustomField, b: Text, y: CustomField)
      modifies this`fields
      ensures fields == old(fields) + map[a := x, b := y]
    {
      InsertsJoin(fields, a, x, b, y);
      Insert(a, x.value, x.isProtected);
      Insert(b, y.value, y.isProtected);
    }

    method OverlayTotp(title: Text, username: Text, spec: TotpSpec)
      modifies this`fields
      ensures fields == WithTotp(old(fields), title, username, Some(spec))
    {
      fields := map key | key in fields && !IsTotpKey(key) :: fields[key];
      FiveInsertsJoin(fields, [OTP, TIME_SECRET, TIME_ALGORITHM, TIME_LENGTH, TIME_PERIOD],
                      [CustomField(PrintUri(title, username, spec), true), CustomField(spec.secretBase32, true),
                       CustomField(AttributeAlgorithm(spec.algorithm), false),
                       CustomField(Decimal(spec.digits), false), CustomField(Decimal(spec.periodSeconds), false)]);
      Insert(OTP, PrintUri(title, username, spec), true);
      Insert(TIME_SECRET, spec.secretBase32, true);
      Insert(TIME_ALGORITHM, AttributeAlgorithm(spec.algorithm), false);
      Insert(TIME_LENGTH, Decimal(spec.digits), false);
      Insert(TIME_PERIOD, Decimal(spec.periodSeconds), false);
    }

    method OverlayPasskey(p: PasskeyRecord)
      modifies this
      ensures hasProjectablePasskey
      ensures fields == WithPasskey(old(fields), Some(p))
    {
      hasProjectablePasskey := true;
      fields := map key | key in fields && !IsPasskeyKey(key) :: fields[key];
      ghost var kept := fields;
      InsertTwo(USERNAME, CustomField(p.username, false), CREDENTIAL_ID, CustomField(p.credentialId, true));
      InsertOptional(GENERATED_USER_ID, p.generatedUserId, false);
      InsertTwo(PRIVATE_KEY_PEM, CustomField(p.privateKeyPem, true), RELYING_PARTY, CustomField(p.relyingParty, false));
      InsertOptional(USER_HANDLE, p.userHandle, true);
      InsertTwo(FLAG_BE, CustomField(Flag(p.backupEligible), false), FLAG_BS, CustomField(Flag(p.backupState), false));
      PartsJoin(kept,
        map[USERNAME := CustomField(p.username, false), CREDENTIAL_ID := CustomField(p.credentialId, true)],
        OptionalField(GENERATED_USER_ID, p.generatedUserId, false),
        map[PRIVATE_KEY_PEM := CustomField(p.privateKeyPem, true), RELYING_PARTY := CustomField(p.relyingParty, false)],
        OptionalField(USER_HANDLE, p.userHandle, true),
        map[FLAG_BE := CustomField(Flag(p.backupEligible), false), FLAG_BS := CustomField(Flag(p.backupState), false)]);
    }
  }

  method MaterializeInPlace(e: Entry) returns (view: AttributeView)
    ensures fresh(view)
    ensures Materialized(view.fields, view.hasProjectablePasskey) == Materialize(e)
  {
    view := new AttributeView(e.attributes);
    var totp := if e.totp.Some? then e.totp else TotpFrom(e.attributes);
    if totp.Some? {
      view.OverlayTotp(e.title, e.username, totp.value);
    } else {
      view.fields := ProtectTotpSecrets(view.fields);
    }
    var passkey := if e.passkey.Some? then e.passkey else PasskeyFrom(e.attributes);
    if passkey.Some? {
      view.OverlayPasskey(passkey.value);
    } else {
      view.fields := ProtectPasskeySecrets(view.fields);
    }
  }
}
