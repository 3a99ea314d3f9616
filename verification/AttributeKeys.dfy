/** The attribute keys reserved for credentials. */
module AttributeKeys {
  import opened TextOrder

  // ---- One-time passwords ----

  const OTP: Text := "otp"
  const TIME_SECRET: Text := "TimeOtp-Secret-Base32"
  const TIME_ALGORITHM: Text := "TimeOtp-Algorithm"
  const TIME_LENGTH: Text := "TimeOtp-Length"
  const TIME_PERIOD: Text := "TimeOtp-Period"

  /** The keys that can carry a projectable TOTP. */
  predicate IsProjectableTotpKey(key: Text) {
    key == OTP || key == TIME_SECRET || key == TIME_ALGORITHM || key == TIME_LENGTH || key == TIME_PERIOD
  }

  predicate IsTotpKey(key: Text) {
    || IsProjectableTotpKey(key)
    || key == "TimeOtp-Secret" || key == "TimeOtp-Secret-Hex" || key == "TimeOtp-Secret-Base64"
    || key == "HmacOtp-Secret" || key == "HmacOtp-Secret-Hex"
    || key == "HmacOtp-Secret-Base32" || key == "HmacOtp-Secret-Base64"
    || key == "HmacOtp-Counter"
  }

  predicate IsTotpSecretKey(key: Text) {
    IsTotpKey(key) && key != TIME_ALGORITHM && key != TIME_LENGTH && key != TIME_PERIOD
  }

  // ---- Passkeys ----

  const USERNAME: Text := "KPEX_PASSKEY_USERNAME"
  const CREDENTIAL_ID: Text := "KPEX_PASSKEY_CREDENTIAL_ID"
  const GENERATED_USER_ID: Text := "KPEX_PASSKEY_GENERATED_USER_ID"
  const PRIVATE_KEY_PEM: Text := "KPEX_PASSKEY_PRIVATE_KEY_PEM"
  const RELYING_PARTY: Text := "KPEX_PASSKEY_RELYING_PARTY"
  const USER_HANDLE: Text := "KPEX_PASSKEY_USER_HANDLE"
  const FLAG_BE: Text := "KPEX_PASSKEY_FLAG_BE"
  const FLAG_BS: Text := "KPEX_PASSKEY_FLAG_BS"

  predicate IsPasskeyKey(key: Text) {
    || key == USERNAME || key == CREDENTIAL_ID || key == GENERATED_USER_ID || key == PRIVATE_KEY_PEM
    || key == RELYING_PARTY || key == USER_HANDLE || key == FLAG_BE || key == FLAG_BS
  }

  predicate IsSensitivePasskeyKey(key: Text) {
    key == CREDENTIAL_ID || key == GENERATED_USER_ID || key == PRIVATE_KEY_PEM || key == USER_HANDLE
  }

  /** Keys that travel with a credential rather than on their own. */
  predicate IsReserved(key: Text) {
    IsTotpKey(key) || IsPasskeyKey(key)
  }

  // ---- The ranges do not overlap ----

  lemma TotpKeyStart(key: Text)
    requires IsTotpKey(key)
    ensures key != [] && key[0] != 'K'
  {
  }

  lemma PasskeyKeyStart(key: Text)
    requires IsPasskeyKey(key)
    ensures key != [] && key[0] == 'K'
  {
  }

  /** No key belongs to both credentials. */
  lemma RangesDisjoint(key: Text)
    ensures !(IsTotpKey(key) && IsPasskeyKey(key))
  {
    if IsTotpKey(key) && IsPasskeyKey(key) {
      TotpKeyStart(key);
      PasskeyKeyStart(key);
    }
  }

  lemma TotpKeysDiffer()
    ensures OTP != TIME_SECRET && OTP != TIME_ALGORITHM && OTP != TIME_LENGTH && OTP != TIME_PERIOD
    ensures TIME_SECRET != TIME_ALGORITHM && TIME_SECRET != TIME_LENGTH && TIME_SECRET != TIME_PERIOD
    ensures TIME_ALGORITHM != TIME_LENGTH && TIME_ALGORITHM != TIME_PERIOD && TIME_LENGTH != TIME_PERIOD
  {
    assert |OTP| == 3 && |TIME_SECRET| == 21 && |TIME_ALGORITHM| == 17 && |TIME_LENGTH| == |TIME_PERIOD| == 14;
    assert TIME_LENGTH[8] == 'L' && TIME_PERIOD[8] == 'P';
  }

  lemma PasskeyKeysDiffer()
    ensures USERNAME != CREDENTIAL_ID && USERNAME != GENERATED_USER_ID && USERNAME != PRIVATE_KEY_PEM
    ensures USERNAME != RELYING_PARTY && USERNAME != USER_HANDLE && USERNAME != FLAG_BE && USERNAME != FLAG_BS
    ensures CREDENTIAL_ID != GENERATED_USER_ID && CREDENTIAL_ID != PRIVATE_KEY_PEM && CREDENTIAL_ID != RELYING_PARTY
    ensures CREDENTIAL_ID != USER_HANDLE && CREDENTIAL_ID != FLAG_BE && CREDENTIAL_ID != FLAG_BS
    ensures GENERATED_USER_ID != PRIVATE_KEY_PEM && GENERATED_USER_ID != RELYING_PARTY
    ensures GENERATED_USER_ID != USER_HANDLE && GENERATED_USER_ID != FLAG_BE && GENERATED_USER_ID != FLAG_BS
    ensures PRIVATE_KEY_PEM != RELYING_PARTY && PRIVATE_KEY_PEM != USER_HANDLE
    ensures PRIVATE_KEY_PEM != FLAG_BE && PRIVATE_KEY_PEM != FLAG_BS
    ensures RELYING_PARTY != USER_HANDLE && RELYING_PARTY != FLAG_BE && RELYING_PARTY != FLAG_BS
    ensures USER_HANDLE != FLAG_BE && USER_HANDLE != FLAG_BS && FLAG_BE != FLAG_BS
  {
    assert USERNAME[13] == 'U' && USERNAME[16] == 'R' && CREDENTIAL_ID[13] == 'C' && GENERATED_USER_ID[13] == 'G';
    assert PRIVATE_KEY_PEM[13] == 'P' && RELYING_PARTY[13] == 'R' && USER_HANDLE[13] == 'U' && USER_HANDLE[17] == '_';
    assert USERNAME[17] == 'N';
    assert FLAG_BE[13] == 'F' && FLAG_BS[13] == 'F' && FLAG_BE[19] == 'E' && FLAG_BS[19] == 'S';
  }
}
