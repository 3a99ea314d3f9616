/** What an accepted `otpauth://totp/` URI says, read off its text: the label, and the parameters between '?' and '&'. */
module OtpauthReading {
  import opened Wrappers
  import opened TextOrder
  import opened PercentCoding
  import opened Model
  import opened Otpauth

  // ---- Words and numbers ----

  /** The same letters, apart from the case of the Latin ones. */
  ghost predicate SameLetters(a: Text, b: Text) {
    && |a| == |b|
    && forall i :: 0 <= i < |a| ==>
        || a[i] == b[i]
        || ('a' <= a[i] <= 'z' && a[i] as int == b[i] as int + 32)
        || ('a' <= b[i] <= 'z' && b[i] as int == a[i] as int + 32)
  }

  lemma SameLettersUpper(a: Text, b: Text)
    ensures SameLetters(a, b) <==> Upper(a) == Upper(b)
  {
    if Upper(a) == Upper(b) {
      forall i | 0 <= i < |a| ensures
        || a[i] == b[i]
        || ('a' <= a[i] <= 'z' && a[i] as int == b[i] as int + 32)
        || ('a' <= b[i] <= 'z' && b[i] as int == a[i] as int + 32)
      {
        assert Upper(a)[i] == Upper(b)[i];
      }
    }
  }

  ghost predicate NamesAlgorithm(value: Text, a: TotpAlgorithm) {
    match a
    case Sha1 => SameLetters(value, "SHA1") || SameLetters(value, "HMAC-SHA-1")
    case Sha256 => SameLetters(value, "SHA256") || SameLetters(value, "HMAC-SHA-256")
    case Sha512 => SameLetters(value, "SHA512") || SameLetters(value, "HMAC-SHA-512")
  }

  lemma NamesUpper(name: Text)
    requires forall i :: 0 <= i < |name| ==> !('a' <= name[i] <= 'z')
    ensures Upper(name) == name
  {
  }

  lemma AlgorithmExactly(value: Text, a: TotpAlgorithm)
    ensures ParseAlgorithm(value) == Some(a) <==> NamesAlgorithm(value, a)
  {
    hide SameLetters, Upper;
    forall name | name in {"SHA1", "HMAC-SHA-1", "SHA256", "HMAC-SHA-256", "SHA512", "HMAC-SHA-512"}
      ensures SameLetters(value, name) <==> Upper(value) == name
    {
      SameLettersUpper(value, name);
      NamesUpper(name);
    }
    assert |"SHA1"| == 4 && |"SHA256"| == |"SHA512"| == 6 && |"HMAC-SHA-1"| == 10 && |"HMAC-SHA-256"| == |"HMAC-SHA-512"| == 12;
    assert "SHA512"[3] == '5' && "SHA256"[3] == '2' && "HMAC-SHA-512"[9] == '5' && "HMAC-SHA-256"[9] == '2';
  }

  /** The decimal form of `n`, after any number of zeros. */
  ghost predicate Padded(digits: Text, n: nat) {
    && digits != []
    && |Decimal(n)| <= |digits|
    && digits[|digits| - |Decimal(n)|..] == Decimal(n)
    && forall i :: 0 <= i < |digits| - |Decimal(n)| ==> digits[i] == '0'
  }

  /** A number as it may be written: a plus sign at will, zeros at will, and its digits. */
  ghost predicate SpellsNumber(value: Text, n: nat) {
    Padded(value, n) || (value != [] && value[0] == '+' && Padded(value[1..], n))
  }

  lemma {:induction false} PaddedValue(digits: Text, n: nat)
    ensures Padded(digits, n) <==> digits != [] && DigitsValue(digits) == Some(n)
  {
    if |digits| == 1 {
      assert digits[..0] == [];
      DecimalValue(n);
      assert DigitsValue([]) == Some(0);
      if n >= 10 {
        DecimalValue(n / 10);
      }
    } else if |digits| > 1 {
      var init, last := digits[..|digits| - 1], digits[|digits| - 1];
      PaddedValue(init, n / 10);
      DecimalValue(n);
      PaddedInit(digits, n);
      if IsDigit(last) && DigitsValue(init).Some? {
        var m := DigitsValue(init).value;
        var d := last as int - '0' as int;
        assert (m * 10 + d) / 10 == m && (m * 10 + d) % 10 == d;
      }
    }
  }

  lemma PaddedInit(digits: Text, n: nat)
    requires |digits| > 1
    ensures Padded(digits, n) <==>
      Padded(digits[..|digits| - 1], n / 10) && digits[|digits| - 1] == Digit(n % 10)
  {
    var init, last := digits[..|digits| - 1], digits[|digits| - 1];
    var k := |Decimal(n)|;
    DecimalValue(n);
    if n < 10 {
      assert Decimal(n) == [Digit(n)] && Decimal(n / 10) == [Digit(0)] && Digit(0) == '0';
      assert digits[|digits| - 1..] == [last];
      assert init[|init| - 1..] == [init[|init| - 1]];
      assert init[|init| - 1] == digits[|digits| - 2];
    } else {
      var head := Decimal(n / 10);
      DecimalValue(n / 10);
      assert Decimal(n) == head + [Digit(n % 10)];
      if k <= |digits| {
        assert digits[|digits| - k..] == init[|init| - |head|..] + [last];
      }
    }
  }

  lemma NumberExactly(value: Text, limit: nat, n: nat)
    ensures ParseNumber(value, limit) == Some(n) <==> SpellsNumber(value, n) && n < limit
  {
    PaddedValue(value, n);
    if value != [] {
      PaddedValue(value[1..], n);
    }
    if Padded(value, n) {
      UnsignedPadded(value, n);
    }
  }

  lemma UnsignedPadded(value: Text, n: nat)
    requires Padded(value, n)
    ensures value[0] != '+'
  {
    DecimalValue(n);
    assert value[|value| - |Decimal(n)|..][0] == Decimal(n)[0];
  }

  // ---- Parameters ----

  const SECRET: Text := "secret"
  const ISSUER: Text := "issuer"
  const ALGORITHM: Text := "algorithm"
  const DIGITS: Text := "digits"
  const PERIOD: Text := "period"

  /** The part is `name=...`. */
  ghost predicate Gives(part: Text, name: Text) {
    |name| < |part| && part[..|name|] == name && part[|name|] == '='
  }

  ghost predicate GivesValue(part: Text, name: Text, value: Text) {
    Gives(part, name) && PercentDecode(part[|name| + 1..]) == Success(value)
  }

  ghost predicate Mentioned(parts: seq<Text>, name: Text) {
    exists i :: 0 <= i < |parts| && Gives(parts[i], name)
  }

  ghost predicate Said(parts: seq<Text>, name: Text, value: Text) {
    exists i :: 0 <= i < |parts| && GivesValue(parts[i], name, value)
  }

  ghost predicate SaidAlgorithm(parts: seq<Text>, a: TotpAlgorithm) {
    exists value :: Said(parts, ALGORITHM, value) && NamesAlgorithm(value, a)
  }

  ghost predicate SaidNumber(parts: seq<Text>, name: Text, n: nat, limit: nat) {
    exists value :: Said(parts, name, value) && SpellsNumber(value, n) && n < limit
  }

  ghost predicate SaidIssuer(parts: seq<Text>, issuer: Option<Text>) {
    exists value :: Said(parts, ISSUER, value) && issuer == if value == [] then None else Some(value)
  }

  ghost predicate Known(name: Text) {
    name in {SECRET, ISSUER, ALGORITHM, DIGITS, PERIOD}
  }

  ghost predicate KnownPart(part: Text) {
    exists name: Text, value: Text :: Known(name) && GivesValue(part, name, value)
  }

  /** Each part is one of the five parameters, and no parameter is given twice. */
  ghost predicate Orderly(parts: seq<Text>) {
    && (forall i :: 0 <= i < |parts| ==> KnownPart(parts[i]))
    && forall i, j, name: Text ::
        0 <= i < j < |parts| && Gives(parts[i], name) && Known(name) ==> !Gives(parts[j], name)
  }

  /** The texts between the occurrences of `c`. */
  function JoinedBy(parts: seq<Text>, c: Byte): Text
    requires parts != []
  {
    if |parts| == 1 then parts[0] else parts[0] + [c] + JoinedBy(parts[1..], c)
  }

  // ---- The whole URI ----

  /** The label before a first colon, before a first encoded colon, or without either. */
  ghost predicate LabelSays(heading: Text, issuer: Option<Text>, account: Text) {
    if ':' in heading then exists k :: ColonAt(heading, k) && LabelParts(heading[..k], heading[k + 1..], issuer, account)
    else if exists k :: EscapeAt(heading, k) then
      exists k :: FirstEscape(heading, k) && EscapedParts(heading[..k], heading[k + 3..], issuer, account)
    else issuer == None && PercentDecode(heading) == Success(account)
  }

  ghost predicate ColonAt(heading: Text, k: int) {
    0 <= k < |heading| && heading[k] == ':' && ':' !in heading[..k]
  }

  ghost predicate EscapeAt(heading: Text, k: int) {
    0 <= k && k + 3 <= |heading| && heading[k] == '%' && heading[k + 1] == '3' && heading[k + 2] in {'A', 'a'}
  }

  ghost predicate FirstEscape(heading: Text, k: int) {
    EscapeAt(heading, k) && forall j :: 0 <= j < k ==> !EscapeAt(heading, j)
  }

  /** The encoded spaces after an encoded colon are dropped. */
  ghost predicate EscapedParts(before: Text, after: Text, issuer: Option<Text>, account: Text) {
    exists spaces: nat :: LeadingSpaces(after, spaces) && LabelParts(before, after[3 * spaces..], issuer, account)
  }

  /** Exactly `n` encoded spaces lead the text. */
  ghost predicate LeadingSpaces(s: Text, n: nat) {
    && 3 * n <= |s|
    && (forall i :: 0 <= i < n ==> SpaceAt(s, 3 * i))
    && !SpaceAt(s, 3 * n)
  }

  ghost predicate SpaceAt(s: Text, k: int) {
    0 <= k && k + 3 <= |s| && s[k] == '%' && s[k + 1] == '2' && s[k + 2] == '0'
  }

  ghost predicate LabelParts(before: Text, after: Text, issuer: Option<Text>, account: Text) {
    && PercentDecode(after) == Success(account)
    && exists name :: PercentDecode(before) == Success(name) && issuer == if name == [] then None else Some(name)
  }

  /** What the parts of the query say, with the defaults of absent parameters. */
  ghost predicate QuerySays(parts: seq<Text>, labelIssuer: Option<Text>, spec: TotpSpec) {
    && Orderly(parts)
    && Said(parts, SECRET, spec.secretBase32)
    && (if Mentioned(parts, ALGORITHM) then SaidAlgorithm(parts, spec.algorithm) else spec.algorithm == Sha1)
    && (if Mentioned(parts, DIGITS) then SaidNumber(parts, DIGITS, spec.digits, 0x1_0000_0000) else spec.digits == 6)
    && (if Mentioned(parts, PERIOD) then SaidNumber(parts, PERIOD, spec.periodSeconds, 0x1_0000_0000_0000_0000)
        else spec.periodSeconds == 30)
    && (if Mentioned(parts, ISSUER) then SaidIssuer(parts, spec.issuer) else spec.issuer == labelIssuer)
  }

  /** The specification an accepted URI stands for. */
  ghost predicate UriSays(uri: Text, spec: TotpSpec) {
    && |uri| >= 15 && SameLetters(uri[..15], "otpauth://totp/")
    && exists k, issuer: Option<Text>, parts: seq<Text> ::
        SaysAt(uri[15..], k, issuer, parts, spec)
  }

  /** The first '?' is at `k`; the label stands before it and the query after it. */
  ghost predicate SaysAt(payload: Text, k: int, labelIssuer: Option<Text>, parts: seq<Text>, spec: TotpSpec) {
    && 0 <= k < |payload| && payload[k] == '?' && '?' !in payload[..k]
    && spec.accountName.Some? && spec.accountName.value != []
    && LabelSays(payload[..k], labelIssuer, spec.accountName.value)
    && parts != [] && payload[k + 1..] == JoinedBy(parts, '&') && (forall i :: 0 <= i < |parts| ==> '&' !in parts[i])
    && QuerySays(parts, labelIssuer, spec)
    && spec.secretBase32 != [] && 1 <= spec.digits <= 9 && spec.periodSeconds != 0
    && (spec.issuer == None ==> ':' !in spec.accountName.value)
  }

  // ---- Cutting and splitting ----

  lemma FirstCut(s: Text, c: Byte, k: int)
    requires 0 <= k < |s| && s[k] == c && c !in s[..k]
    ensures Cut(s, c) == Some((s[..k], s[k + 1..]))
  {
    CutAt(s[..k], c, s[k + 1..]);
    assert s == s[..k] + [c] + s[k + 1..];
  }

  /** Where the cut is made. */
  lemma CutPosition(s: Text, c: Byte)
    requires Cut(s, c).Some?
    ensures var (before, after) := Cut(s, c).value;
      |before| < |s| && s[|before|] == c && s[..|before|] == before && s[|before| + 1..] == after && c !in before
  {
    CutIsExact(s, c);
  }

  lemma {:induction false} SplitJoined(parts: seq<Text>, c: Byte)
    requires parts != [] && forall i :: 0 <= i < |parts| ==> c !in parts[i]
    ensures SplitAll(JoinedBy(parts, c), c) == parts
  {
    if |parts| == 1 {
      SplitNone(parts[0], c);
    } else {
      SplitJoined(parts[1..], c);
      SplitAt(parts[0], c, JoinedBy(parts[1..], c));
      assert parts == [parts[0]] + parts[1..];
    }
  }

  lemma {:induction false} SplitIsJoined(s: Text, c: Byte)
    ensures SplitAll(s, c) != [] && JoinedBy(SplitAll(s, c), c) == s
    ensures forall i :: 0 <= i < |SplitAll(s, c)| ==> c !in SplitAll(s, c)[i]
    decreases |s|
  {
    CutIsExact(s, c);
    match Cut(s, c)
    case None =>
    case Some((before, after)) =>
      SplitIsJoined(after, c);
      assert ([before] + SplitAll(after, c))[1..] == SplitAll(after, c);
  }

  // ---- The label ----

  lemma {:induction false} SeparatorExactly(s: Text)
    ensures match EncodedSeparator(s)
      case Some(k) => FirstEscape(s, k)
      case None => forall k :: !EscapeAt(s, k)
  {
    if |s| >= 3 && !EscapeAt(s, 0) {
      SeparatorExactly(s[1..]);
      assert forall k :: EscapeAt(s, k) ==> EscapeAt(s[1..], k - 1);
    }
  }

  lemma {:induction false} TrimExactly(s: Text, n: nat)
    requires LeadingSpaces(s, n)
    ensures TrimEncodedSpaces(s) == s[3 * n..]
  {
    if n > 0 {
      assert SpaceAt(s, 3 * 0);
      forall i | 0 <= i < n - 1 ensures SpaceAt(s[3..], 3 * i) {
        assert SpaceAt(s, 3 * (i + 1));
      }
      assert !SpaceAt(s, 3 * n) && !SpaceAt(s[3..], 3 * (n - 1));
      TrimExactly(s[3..], n - 1);
      assert s[3..][3 * (n - 1)..] == s[3 * n..];
    } else {
      assert !SpaceAt(s, 0);
    }
  }

  lemma {:induction false} SpacesCounted(s: Text) returns (n: nat)
    ensures LeadingSpaces(s, n)
    decreases |s|
  {
    n := 0;
    if SpaceAt(s, 0) {
      var m := SpacesCounted(s[3..]);
      n := m + 1;
      forall i | 0 <= i < n ensures SpaceAt(s, 3 * i) {
        if i > 0 {
          assert SpaceAt(s[3..], 3 * (i - 1));
        }
      }
      assert !SpaceAt(s[3..], 3 * m);
    }
  }

  lemma LabelExactly(heading: Text, issuer: Option<Text>, account: Text)
    requires account != []
    ensures ParseLabel(heading) == Success(Label(issuer, Some(account))) <==> LabelSays(heading, issuer, account)
  {
    hide PercentDecode, EncodedSeparator, Cut, EscapedParts, FirstEscape, EscapeAt;
    CutIsExact(heading, ':');
    EscapeExactly(heading, issuer, account);
    if ':' in heading {
      var at := |Cut(heading, ':').value.0|;
      CutPosition(heading, ':');
      assert ColonAt(heading, at);
      assert forall k :: ColonAt(heading, k) ==> k == at;
    }
  }

  lemma EscapeExactly(heading: Text, issuer: Option<Text>, account: Text)
    ensures EncodedSeparator(heading).Some? <==> exists k :: EscapeAt(heading, k)
    ensures EncodedSeparator(heading).Some? ==>
      var at := EncodedSeparator(heading).value;
      LabelParts(heading[..at], TrimEncodedSpaces(heading[at + 3..]), issuer, account)
      <==> exists k :: FirstEscape(heading, k) && EscapedParts(heading[..k], heading[k + 3..], issuer, account)
  {
    hide EncodedSeparator, TrimEncodedSpaces, EscapedParts, LabelParts;
    SeparatorExactly(heading);
    if EncodedSeparator(heading).Some? {
      var at := EncodedSeparator(heading).value;
      assert EscapeAt(heading, at);
      TrimmedParts(heading[..at], heading[at + 3..], issuer, account);
      FirstIsOne(heading, at);
    }
  }

  lemma TrimmedParts(before: Text, after: Text, issuer: Option<Text>, account: Text)
    ensures EscapedParts(before, after, issuer, account) <==> LabelParts(before, TrimEncodedSpaces(after), issuer, account)
  {
    hide LabelParts;
    var n := SpacesCounted(after);
    TrimExactly(after, n);
    forall m: nat | LeadingSpaces(after, m) ensures TrimEncodedSpaces(after) == after[3 * m..] {
      TrimExactly(after, m);
    }
  }

  lemma FirstIsOne(heading: Text, at: int)
    requires FirstEscape(heading, at)
    ensures forall k :: FirstEscape(heading, k) ==> k == at
  {
  }

  // ---- The query ----

  ghost predicate Unnamed(name: Text) {
    '=' !in name
  }

  lemma KnownUnnamed(name: Text)
    requires Known(name)
    ensures Unnamed(name) && KeyNamed(name).Some? && KeyName(KeyNamed(name).value) == name
  {
    forall i | 0 <= i < |name| ensures name[i] != '=' {
    }
  }

  lemma KeyKnown(key: Key)
    ensures Known(KeyName(key)) && KeyNamed(KeyName(key)) == Some(key)
  {
    assert "secret"[0] == 's' && "issuer"[0] == 'i' && "algorithm"[0] == 'a' && "digits"[0] == 'd' && "period"[0] == 'p';
  }

  lemma GivenIsCut(part: Text, name: Text)
    requires Unnamed(name)
    ensures Gives(part, name) <==> Cut(part, '=') == Some((name, if |name| < |part| then part[|name| + 1..] else []))
    ensures Gives(part, name) <==> Cut(part, '=').Some? && Cut(part, '=').value.0 == name
  {
    if Gives(part, name) {
      FirstCut(part, '=', |name|);
    }
    if Cut(part, '=').Some? {
      CutPosition(part, '=');
    }
  }

  ghost predicate SeenExactly(seen: set<Key>, parts: seq<Text>) {
    forall key :: key in seen <==> Mentioned(parts, KeyName(key))
  }

  ghost predicate CapturesTexts(q: Query, parts: seq<Text>) {
    && (if Mentioned(parts, SECRET) then q.secret.Some? && Said(parts, SECRET, q.secret.value) else q.secret == None)
    && (if Mentioned(parts, ISSUER) then q.issuer.Some? && SaidIssuer(parts, q.issuer.value) else q.issuer == None)
  }

  /** Each kind of parameter, as far as the parts have been read. */
  ghost predicate Captures(q: Query, parts: seq<Text>) {
    && Orderly(parts) && SeenExactly(q.seen, parts) && CapturesTexts(q, parts)
    && (if Mentioned(parts, ALGORITHM) then SaidAlgorithm(parts, q.algorithm) else q.algorithm == Sha1)
    && (if Mentioned(parts, DIGITS) then SaidNumber(parts, DIGITS, q.digits, U32_LIMIT) else q.digits == 6)
    && (if Mentioned(parts, PERIOD) then SaidNumber(parts, PERIOD, q.period, U64_LIMIT) else q.period == 30)
  }

  /** The parts are parameters whose values can be taken. */
  ghost predicate Readable(parts: seq<Text>) {
    && Orderly(parts)
    && (Mentioned(parts, ALGORITHM) ==> exists a :: SaidAlgorithm(parts, a))
    && (Mentioned(parts, DIGITS) ==> exists n :: SaidNumber(parts, DIGITS, n, U32_LIMIT))
    && (Mentioned(parts, PERIOD) ==> exists n :: SaidNumber(parts, PERIOD, n, U64_LIMIT))
  }

  lemma MentionedPush(parts: seq<Text>, part: Text, name: Text)
    ensures Mentioned(parts + [part], name) <==> Mentioned(parts, name) || Gives(part, name)
  {
    assert (parts + [part])[|parts|] == part;
    assert forall i :: 0 <= i < |parts| ==> (parts + [part])[i] == parts[i];
  }

  lemma SaidPush(parts: seq<Text>, part: Text, name: Text, value: Text)
    ensures Said(parts + [part], name, value) <==> Said(parts, name, value) || GivesValue(part, name, value)
  {
    assert (parts + [part])[|parts|] == part;
    assert forall i :: 0 <= i < |parts| ==> (parts + [part])[i] == parts[i];
  }

  lemma OrderlyPush(parts: seq<Text>, part: Text, name: Text, value: Text)
    requires Orderly(parts) && Known(name) && GivesValue(part, name, value) && !Mentioned(parts, name)
    ensures Orderly(parts + [part])
  {
    var all := parts + [part];
    assert all[|parts|] == part;
    assert forall i :: 0 <= i < |parts| ==> all[i] == parts[i];
    forall i, j, other: Text | 0 <= i < j < |all| && Gives(all[i], other) && Known(other) ensures !Gives(all[j], other) {
      if j == |parts| && Gives(part, other) {
        OneName(part, name, other);
      }
    }
  }

  lemma OneName(part: Text, a: Text, b: Text)
    requires Known(a) && Known(b) && Gives(part, a) && Gives(part, b)
    ensures a == b
  {
    KnownUnnamed(a);
    KnownUnnamed(b);
    GivenIsCut(part, a);
    GivenIsCut(part, b);
  }

  /** A parameter given once has one value. */
  lemma OneValue(parts: seq<Text>, name: Text, i: nat)
    requires Orderly(parts) && i < |parts| && Gives(parts[i], name) && Known(name)
    ensures forall value :: Said(parts, name, value) ==> PercentDecode(parts[i][|name| + 1..]) == Success(value)
  {
  }

  lemma PairCaptured(q: Query, parts: seq<Text>, part: Text, name: Text, value: Text)
    requires Captures(q, parts) && Known(name) && GivesValue(part, name, value) && !Mentioned(parts, name)
    requires StoreParameter(q, KeyNamed(name).value, value).Success?
    ensures Captures(StoreParameter(q, KeyNamed(name).value, value).value, parts + [part])
  {
    hide Mentioned, Said, Orderly, ParseAlgorithm, ParseNumber, NamesAlgorithm, SpellsNumber, PercentDecode, Gives;
    var all, key := parts + [part], KeyNamed(name).value;
    var next := StoreParameter(q, key, value).value;
    assert Gives(part, name) by { assert GivesValue(part, name, value); }
    KnownUnnamed(name);
    OrderlyPush(parts, part, name, value);
    forall other: Text | Known(other)
      ensures Mentioned(all, other) <==> Mentioned(parts, other) || other == name
      ensures other != name ==> !Gives(part, other)
    {
      MentionedPush(parts, part, other);
      if Gives(part, other) {
        OneName(part, name, other);
      }
    }
    forall k: Key ensures k in next.seen <==> Mentioned(all, KeyName(k)) {
      KeyKnown(k);
    }
    forall other: Text, v: Text | Known(other) ensures Said(all, other, v) <==> Said(parts, other, v) || GivesValue(part, other, v) {
      SaidPush(parts, part, other, v);
    }
    SaidOthers(parts, all, name);
    StoredValue(q, key, value);
    assert Said(all, name, value);
  }

  lemma SaidOthers(parts: seq<Text>, all: seq<Text>, name: Text)
    requires forall other: Text, v: Text :: Known(other) && Said(parts, other, v) ==> Said(all, other, v)
    ensures forall a :: SaidAlgorithm(parts, a) ==> SaidAlgorithm(all, a)
    ensures forall i :: SaidIssuer(parts, i) ==> SaidIssuer(all, i)
    ensures forall n :: SaidNumber(parts, DIGITS, n, U32_LIMIT) ==> SaidNumber(all, DIGITS, n, U32_LIMIT)
    ensures forall n :: SaidNumber(parts, PERIOD, n, U64_LIMIT) ==> SaidNumber(all, PERIOD, n, U64_LIMIT)
  {
    hide Said, NamesAlgorithm, SpellsNumber;
  }

  lemma StoredValue(q: Query, key: Key, value: Text)
    requires StoreParameter(q, key, value).Success?
    ensures var next := StoreParameter(q, key, value).value;
      && next == q.(seen := q.seen + {key}, secret := next.secret, issuer := next.issuer, algorithm := next.algorithm,
                    digits := next.digits, period := next.period)
      && next.secret == (if key.SecretKey? then Some(value) else q.secret)
      && next.issuer == (if key.IssuerKey? then Some(if value == [] then None else Some(value)) else q.issuer)
      && (if key.AlgorithmKey? then NamesAlgorithm(value, next.algorithm) else next.algorithm == q.algorithm)
      && (if key.DigitsKey? then SpellsNumber(value, next.digits) && next.digits < U32_LIMIT else next.digits == q.digits)
      && (if key.PeriodKey? then SpellsNumber(value, next.period) && next.period < U64_LIMIT else next.period == q.period)
  {
    hide NamesAlgorithm, SpellsNumber, ParseAlgorithm, ParseNumber;
    var next := StoreParameter(q, key, value).value;
    AlgorithmExactly(value, next.algorithm);
    NumberExactly(value, U32_LIMIT, next.digits);
    NumberExactly(value, U64_LIMIT, next.period);
  }

  /** A part that cannot be taken after the ones before it. */
  lemma PairRefused(q: Query, parts: seq<Text>, i: nat)
    requires i < |parts| && Captures(q, parts[..i]) && ReadPair(q, parts[i]).Failure?
    ensures !Readable(parts)
  {
    hide PercentDecode, ParseAlgorithm, ParseNumber, Cut, StoreParameter;
    if Readable(parts) {
      assert KnownPart(parts[i]);
      var name: Text, value: Text :| Known(name) && GivesValue(parts[i], name, value);
      KnownUnnamed(name);
      GivenIsCut(parts[i], name);
      if KeyNamed(name).value in q.seen {
        NotBefore(parts, i, name);
        assert false;
      }
      MentionedAt(parts, i, name);
      OneValue(parts, name, i);
      StoreRefused(q, parts, KeyNamed(name).value, value);
    }
  }

  lemma MentionedAt(parts: seq<Text>, i: nat, name: Text)
    requires i < |parts| && Gives(parts[i], name)
    ensures Mentioned(parts, name)
  {
  }

  lemma NotBefore(parts: seq<Text>, i: nat, name: Text)
    requires Orderly(parts) && i < |parts| && Gives(parts[i], name) && Known(name)
    ensures !Mentioned(parts[..i], name)
  {
  }

  lemma StoreRefused(q: Query, parts: seq<Text>, key: Key, value: Text)
    requires Readable(parts) && Mentioned(parts, KeyName(key))
    requires forall v :: Said(parts, KeyName(key), v) ==> v == value
    ensures StoreParameter(q, key, value).Success?
  {
    hide Orderly, Mentioned, Said, NamesAlgorithm, SpellsNumber, ParseAlgorithm, ParseNumber;
    match key
    case AlgorithmKey =>
      var a :| SaidAlgorithm(parts, a);
      AlgorithmExactly(value, a);
    case DigitsKey =>
      var n :| SaidNumber(parts, DIGITS, n, U32_LIMIT);
      NumberExactly(value, U32_LIMIT, n);
    case PeriodKey =>
      var n :| SaidNumber(parts, PERIOD, n, U64_LIMIT);
      NumberExactly(value, U64_LIMIT, n);
    case SecretKey =>
    case IssuerKey =>
  }

  lemma {:induction false} PairsCaptured(q: Query, parts: seq<Text>, i: nat)
    requires i <= |parts| && Captures(q, parts[..i])
    ensures match ReadPairs(q, parts[i..])
      case Success(last) => Captures(last, parts)
      case Failure(_) => !Readable(parts)
    decreases |parts| - i
  {
    hide Captures, Readable, ReadPair;
    if i == |parts| {
      assert parts[..i] == parts;
    } else {
      assert parts[i..][1..] == parts[i + 1..] && parts[i..][0] == parts[i];
      match ReadPair(q, parts[i])
      case Failure(_) => PairRefused(q, parts, i);
      case Success(next) =>
        PairTaken(q, parts, i);
        PairsCaptured(next, parts, i + 1);
    }
  }

  lemma UnseenUnmentioned(q: Query, parts: seq<Text>, key: Key)
    requires Captures(q, parts) && key !in q.seen
    ensures !Mentioned(parts, KeyName(key))
  {
  }

  lemma PairTaken(q: Query, parts: seq<Text>, i: nat)
    requires i < |parts| && Captures(q, parts[..i]) && ReadPair(q, parts[i]).Success?
    ensures Captures(ReadPair(q, parts[i]).value, parts[..i + 1])
  {
    hide StoreParameter, PercentDecode, Captures;
    var (name, encoded) := Cut(parts[i], '=').value;
    CutPosition(parts[i], '=');
    KeyKnown(KeyNamed(name).value);
    UnseenUnmentioned(q, parts[..i], KeyNamed(name).value);
    PairCaptured(q, parts[..i], parts[i], name, PercentDecode(encoded).value);
    assert parts[..i + 1] == parts[..i] + [parts[i]];
  }

  lemma NothingCaptured()
    ensures Captures(EMPTY_QUERY, [])
  {
  }

  // ---- Main results ----

  /** A query whose parts are read leaves no choice in what it says. */
  lemma SaysDetermined(q: Query, parts: seq<Text>, names: Label, spec: TotpSpec)
    requires Captures(q, parts)
    requires spec.accountName == names.account && spec.accountName.Some? && spec.accountName.value != []
    requires spec.secretBase32 != [] && 1 <= spec.digits <= 9 && spec.periodSeconds != 0
    requires spec.issuer == None ==> ':' !in spec.accountName.value
    ensures QuerySays(parts, names.issuer, spec) <==> Finish(names, q) == Success(spec)
  {
    hide Captures, QuerySays;
    if QuerySays(parts, names.issuer, spec) {
      CapturedIsSaid(q, parts, names.issuer, spec);
    }
    if Finish(names, q) == Success(spec) {
      SaidIsCaptured(q, parts, names, spec);
    }
  }

  lemma SaidIsCaptured(q: Query, parts: seq<Text>, names: Label, spec: TotpSpec)
    requires Captures(q, parts) && Finish(names, q) == Success(spec)
    ensures QuerySays(parts, names.issuer, spec)
  {
    hide Orderly, Mentioned, Said, SaidAlgorithm, SaidIssuer, SaidNumber, SeenExactly;
  }

  lemma CapturedIsSaid(q: Query, parts: seq<Text>, labelIssuer: Option<Text>, spec: TotpSpec)
    requires Captures(q, parts) && QuerySays(parts, labelIssuer, spec)
    ensures q.secret == Some(spec.secretBase32) && q.algorithm == spec.algorithm && q.digits == spec.digits
    ensures q.period == spec.periodSeconds && q.issuer.GetOr(labelIssuer) == spec.issuer
  {
    hide Orderly, Mentioned, Said, SaidAlgorithm, SaidIssuer, SaidNumber, SeenExactly;
    SaidMentions(parts, SECRET, spec.secretBase32);
    OneSaid(parts, SECRET);
    OneIssuer(parts);
    OneAlgorithm(parts);
    OneNumber(parts, DIGITS, U32_LIMIT);
    OneNumber(parts, PERIOD, U64_LIMIT);
  }

  lemma SaidMentions(parts: seq<Text>, name: Text, value: Text)
    requires Said(parts, name, value)
    ensures Mentioned(parts, name)
  {
  }

  lemma OneSaid(parts: seq<Text>, name: Text)
    requires Orderly(parts) && Known(name)
    ensures forall v, w :: Said(parts, name, v) && Said(parts, name, w) ==> v == w
  {
    hide PercentDecode;
    forall v, w | Said(parts, name, v) && Said(parts, name, w) ensures v == w {
      var i :| 0 <= i < |parts| && GivesValue(parts[i], name, v);
      OneValue(parts, name, i);
    }
  }

  lemma OneIssuer(parts: seq<Text>)
    requires Orderly(parts)
    ensures forall a, b :: SaidIssuer(parts, a) && SaidIssuer(parts, b) ==> a == b
  {
    hide Orderly, Said;
    OneSaid(parts, ISSUER);
  }

  lemma OneAlgorithm(parts: seq<Text>)
    requires Orderly(parts)
    ensures forall a, b :: SaidAlgorithm(parts, a) && SaidAlgorithm(parts, b) ==> a == b
  {
    hide Orderly, Said, NamesAlgorithm, ParseAlgorithm;
    OneSaid(parts, ALGORITHM);
    forall a, b | SaidAlgorithm(parts, a) && SaidAlgorithm(parts, b) ensures a == b {
      var value :| Said(parts, ALGORITHM, value) && NamesAlgorithm(value, a);
      AlgorithmExactly(value, a);
      AlgorithmExactly(value, b);
    }
  }

  lemma OneNumber(parts: seq<Text>, name: Text, limit: nat)
    requires Orderly(parts) && Known(name)
    ensures forall m: nat, n: nat :: SaidNumber(parts, name, m, limit) && SaidNumber(parts, name, n, limit) ==> m == n
  {
    hide Orderly, Said, SpellsNumber, ParseNumber;
    OneSaid(parts, name);
    forall m: nat, n: nat | SaidNumber(parts, name, m, limit) && SaidNumber(parts, name, n, limit) ensures m == n {
      var value :| Said(parts, name, value) && SpellsNumber(value, m) && m < limit;
      NumberExactly(value, limit, m);
      NumberExactly(value, limit, n);
    }
  }

  lemma AccountNamed(heading: Text, q: Query, spec: TotpSpec)
    requires ParseLabel(heading).Success? && Finish(ParseLabel(heading).value, q) == Success(spec)
    ensures spec.accountName.Some? && spec.accountName.value != []
    ensures ParseLabel(heading) == Success(Label(ParseLabel(heading).value.issuer, spec.accountName))
    ensures spec.secretBase32 != [] && 1 <= spec.digits <= 9 && spec.periodSeconds != 0
    ensures spec.issuer == None ==> ':' !in spec.accountName.value
  {
    hide ParseLabel;
  }

  /** The parser accepts a URI as `spec` exactly when that is what the URI says. */
  lemma ParsedExactly(uri: Text, spec: TotpSpec)
    ensures ParseOtpauth(uri) == Success(spec) <==> UriSays(uri, spec)
  {
    hide SameLetters, SaysAt, ParseLabel, ReadPairs, Finish, Cut, Upper;
    if |uri| >= 15 {
      SameLettersUpper(uri[..15], PREFIX);
      if ParseOtpauth(uri) == Success(spec) {
        AcceptedSays(uri[15..], spec);
      }
      if UriSays(uri, spec) {
        var k, issuer: Option<Text>, parts: seq<Text> :| SaysAt(uri[15..], k, issuer, parts, spec);
        SaysAccepted(uri[15..], k, issuer, parts, spec);
      }
    }
  }

  ghost predicate PayloadRead(payload: Text, spec: TotpSpec) {
    && Cut(payload, '?').Some?
    && var (heading, query) := Cut(payload, '?').value;
    && ParseLabel(heading).Success? && ReadPairs(EMPTY_QUERY, SplitAll(query, '&')).Success?
    && Finish(ParseLabel(heading).value, ReadPairs(EMPTY_QUERY, SplitAll(query, '&')).value) == Success(spec)
  }

  lemma AcceptedSays(payload: Text, spec: TotpSpec)
    requires PayloadRead(payload, spec)
    ensures exists k, issuer: Option<Text>, parts: seq<Text> :: SaysAt(payload, k, issuer, parts, spec)
  {
    hide ParseLabel, ReadPairs, Finish, LabelSays, QuerySays, Captures, Cut, SplitAll, JoinedBy;
    var (heading, query) := Cut(payload, '?').value;
    CutPosition(payload, '?');
    var names, parts := ParseLabel(heading).value, SplitAll(query, '&');
    SplitIsJoined(query, '&');
    NothingCaptured();
    assert parts[..0] == [] && parts[0..] == parts;
    PairsCaptured(EMPTY_QUERY, parts, 0);
    var q := ReadPairs(EMPTY_QUERY, parts).value;
    AccountNamed(heading, q, spec);
    LabelExactly(heading, names.issuer, spec.accountName.value);
    SaysDetermined(q, parts, names, spec);
    assert SaysAt(payload, |heading|, names.issuer, parts, spec);
  }

  lemma SaysAccepted(payload: Text, k: int, issuer: Option<Text>, parts: seq<Text>, spec: TotpSpec)
    requires SaysAt(payload, k, issuer, parts, spec)
    ensures PayloadRead(payload, spec)
  {
    hide ParseLabel, ReadPairs, Finish, LabelSays, QuerySays, Captures, Cut, SplitAll, JoinedBy, Readable;
    var heading := payload[..k];
    FirstCut(payload, '?', k);
    SplitJoined(parts, '&');
    NothingCaptured();
    assert parts[..0] == [] && parts[0..] == parts;
    PairsCaptured(EMPTY_QUERY, parts, 0);
    SaysReadable(parts, issuer, spec);
    LabelExactly(heading, issuer, spec.accountName.value);
    SaysDetermined(ReadPairs(EMPTY_QUERY, parts).value, parts, Label(issuer, spec.accountName), spec);
  }

  lemma SaysReadable(parts: seq<Text>, labelIssuer: Option<Text>, spec: TotpSpec)
    requires QuerySays(parts, labelIssuer, spec)
    ensures Readable(parts)
  {
    hide Orderly, Mentioned, SaidAlgorithm, SaidIssuer, SaidNumber;
  }

  // ---- What is printed ----

  ghost function PrintedAlgorithm(a: TotpAlgorithm): Text {
    match a
    case Sha1 => "SHA1"
    case Sha256 => "SHA256"
    case Sha512 => "SHA512"
  }

  /** An account without an issuer stands alone; otherwise the title and the user name stand in for missing parts. */
  ghost predicate PrintsLabel(heading: Text, issuer: Option<Text>, title: Text, username: Text, spec: TotpSpec) {
    if spec.issuer == None && spec.accountName != None && spec.accountName != Some([]) then
      heading == Encode(spec.accountName.value) && issuer == None
    else
      && issuer == Some(if spec.issuer == None then title else spec.issuer.value)
      && heading == Encode(issuer.value) + ":"
           + Encode(if spec.issuer != None && spec.accountName != None then spec.accountName.value else username)
  }

  /** The printed URI: its label, and the parameters in their order, the issuer only where there is one. */
  lemma PrintedExactly(title: Text, username: Text, spec: TotpSpec)
    ensures exists heading: Text, issuer: Option<Text> ::
      && PrintsLabel(heading, issuer, title, username, spec)
      && PrintUri(title, username, spec) ==
           "otpauth://totp/" + heading + "?secret=" + Encode(spec.secretBase32)
           + (if issuer.Some? then "&issuer=" + Encode(issuer.value) else [])
           + "&algorithm=" + PrintedAlgorithm(spec.algorithm)
           + "&digits=" + Decimal(spec.digits) + "&period=" + Decimal(spec.periodSeconds)
  {
    hide Encode, Decimal;
    var (heading, issuer) := PrintedLabel(title, username, spec);
    assert PrintsLabel(heading, issuer, title, username, spec);
    PrintedParameters(heading, spec, issuer);
  }

  lemma Appended(front: Text, query: Text, key: Key, value: Text, name: Text)
    requires name == ['&'] + KeyName(key) + ['=']
    ensures front + WithParameter(query, key, value) == front + query + name + value
  {
    hide KeyName;
    assert WithParameter(query, key, value) == query + (name + value);
    assert front + (query + (name + value)) == front + query + name + value;
  }

  /** The parameters after the first, behind any text. */
  lemma PrintedAfter(front: Text, spec: TotpSpec, issuer: Option<Text>)
    ensures front + PrintedQuery(spec, issuer) ==
      front + Parameter(SecretKey, Encode(spec.secretBase32))
      + (if issuer.Some? then "&issuer=" + Encode(issuer.value) else [])
      + "&algorithm=" + PrintedAlgorithm(spec.algorithm)
      + "&digits=" + Decimal(spec.digits) + "&period=" + Decimal(spec.periodSeconds)
  {
    hide Encode, Decimal, WithParameter, Parameter;
    var secret := Parameter(SecretKey, Encode(spec.secretBase32));
    var named := if issuer.Some? then WithParameter(secret, IssuerKey, Encode(issuer.value)) else secret;
    if issuer.Some? {
      Appended(front, secret, IssuerKey, Encode(issuer.value), "&issuer=");
      assert front + named == front + secret + ("&issuer=" + Encode(issuer.value));
    } else {
      assert front + named == front + secret + [];
    }
    var algorithm := WithParameter(named, AlgorithmKey, AlgorithmName(spec.algorithm));
    Appended(front, named, AlgorithmKey, AlgorithmName(spec.algorithm), "&algorithm=");
    var digits := WithParameter(algorithm, DigitsKey, Decimal(spec.digits));
    Appended(front, algorithm, DigitsKey, Decimal(spec.digits), "&digits=");
    Appended(front, digits, PeriodKey, Decimal(spec.periodSeconds), "&period=");
  }

  lemma SecretFirst(heading: Text, secret: Text)
    ensures PREFIX + heading + "?" + Parameter(SecretKey, secret) == "otpauth://totp/" + heading + "?secret=" + secret
  {
    assert Parameter(SecretKey, secret) == "secret=" + secret;
    assert PREFIX + heading + "?" + ("secret=" + secret) == PREFIX + heading + ("?" + "secret=") + secret;
    assert "?" + "secret=" == "?secret=";
  }

  lemma PrintedParameters(heading: Text, spec: TotpSpec, issuer: Option<Text>)
    ensures PREFIX + heading + "?" + PrintedQuery(spec, issuer) ==
      "otpauth://totp/" + heading + "?secret=" + Encode(spec.secretBase32)
      + (if issuer.Some? then "&issuer=" + Encode(issuer.value) else [])
      + "&algorithm=" + PrintedAlgorithm(spec.algorithm)
      + "&digits=" + Decimal(spec.digits) + "&period=" + Decimal(spec.periodSeconds)
  {
    hide *;
    PrintedAfter(PREFIX + heading + "?", spec, issuer);
    SecretFirst(heading, Encode(spec.secretBase32));
  }
}
