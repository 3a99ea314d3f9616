/** Parsing and printing of `otpauth://totp/` URIs. */
module Otpauth {
  import opened Wrappers
  import opened TextOrder
  import opened PercentCoding
  import opened Model

  // ---- Decimal numbers ----

  const U32_LIMIT: nat := 0x1_0000_0000
  const U64_LIMIT: nat := 0x1_0000_0000_0000_0000

  function Digit(n: nat): Byte
    requires n < 10
  {
    ('0' as int + n) as char
  }

  predicate IsDigit(b: Byte) {
    '0' <= b <= '9'
  }

  function Decimal(n: nat): Text {
    if n < 10 then [Digit(n)] else Decimal(n / 10) + [Digit(n % 10)]
  }

  /** The number a string of digits spells. */
  function DigitsValue(s: Text): Option<nat> {
    if s == [] then Some(0)
    else
      var last := s[|s| - 1];
      match DigitsValue(s[..|s| - 1])
      case Some(n) => if IsDigit(last) then Some(n * 10 + (last as int - '0' as int)) else None
      case None => None
  }

  /** Parses an unsigned integer below `limit`; one leading '+' is allowed. */
  function ParseNumber(s: Text, limit: nat): Option<nat> {
    var digits := if |s| > 1 && s[0] == '+' then s[1..] else s;
    match DigitsValue(digits)
    case Some(n) => if digits != [] && n < limit then Some(n) else None
    case None => None
  }

  lemma {:induction false} DecimalValue(n: nat)
    ensures Decimal(n) != [] && Decimal(n)[0] != '+'
    ensures DigitsValue(Decimal(n)) == Some(n)
    ensures forall b :: b in Decimal(n) ==> IsDigit(b)
  {
    if n < 10 {
      assert [Digit(n)][..0] == [];
    } else {
      DecimalValue(n / 10);
      var s := Decimal(n);
      assert s[..|s| - 1] == Decimal(n / 10) && s[|s| - 1] == Digit(n % 10);
    }
  }

  lemma ParseOfDecimal(n: nat, limit: nat)
    ensures ParseNumber(Decimal(n), limit) == if n < limit then Some(n) else None
  {
    DecimalValue(n);
  }

  // ---- Splitting ----

  /** The parts around the first `c`. */
  function Cut(s: Text, c: Byte): Option<(Text, Text)> {
    if s == [] then None
    else if s[0] == c then Some(([], s[1..]))
    else match Cut(s[1..], c)
      case Some((before, after)) => Some(([s[0]] + before, after))
      case None => None
  }

  /** The parts between the occurrences of `c`, of which there is always at least one. */
  function SplitAll(s: Text, c: Byte): seq<Text>
    decreases |s|
  {
    match Cut(s, c)
    case None => [s]
    case Some((before, after)) =>
      CutIsExact(s, c);
      [before] + SplitAll(after, c)
  }

  lemma {:induction false} CutIsExact(s: Text, c: Byte)
    ensures match Cut(s, c)
      case Some((before, after)) => s == before + [c] + after && c !in before
      case None => c !in s
  {
    if s != [] && s[0] != c {
      CutIsExact(s[1..], c);
    }
  }

  lemma {:induction false} CutAt(before: Text, c: Byte, after: Text)
    requires c !in before
    ensures Cut(before + [c] + after, c) == Some((before, after))
  {
    var s := before + [c] + after;
    if before == [] {
      assert s[1..] == after;
    } else {
      assert s[1..] == before[1..] + [c] + after && before == [before[0]] + before[1..];
      CutAt(before[1..], c, after);
    }
  }

  lemma CutNone(s: Text, c: Byte)
    requires c !in s
    ensures Cut(s, c) == None
  {
    CutIsExact(s, c);
  }

  lemma SplitNone(s: Text, c: Byte)
    requires c !in s
    ensures SplitAll(s, c) == [s]
  {
    CutIsExact(s, c);
  }

  lemma SplitAt(before: Text, c: Byte, after: Text)
    requires c !in before
    ensures SplitAll(before + [c] + after, c) == [before] + SplitAll(after, c)
  {
    CutAt(before, c, after);
  }

  /** Appending one more part to a text that is split. */
  lemma {:induction false} SplitAppend(s: Text, c: Byte, last: Text)
    requires c !in last
    ensures SplitAll(s + [c] + last, c) == SplitAll(s, c) + [last]
    decreases |s|
  {
    CutIsExact(s, c);
    match Cut(s, c)
    case None =>
      CutAt(s, c, last);
      CutNone(last, c);
    case Some((before, after)) =>
      assert s + [c] + last == before + [c] + (after + [c] + last);
      SplitAt(before, c, after + [c] + last);
      SplitAppend(after, c, last);
  }

  // ---- The parser ----

  const PREFIX: Text := "otpauth://totp/"

  function UpperByte(b: Byte): Byte {
    if 'a' <= b <= 'z' then (b as int - 32) as char else b
  }

  function Upper(s: Text): Text {
    seq(|s|, i requires 0 <= i < |s| => UpperByte(s[i]))
  }

  predicate EqualIgnoringCase(a: Text, b: Text) {
    Upper(a) == Upper(b)
  }

  function TrimEncodedSpaces(s: Text): Text {
    if |s| >= 3 && s[0] == '%' && s[1] == '2' && s[2] == '0' then TrimEncodedSpaces(s[3..]) else s
  }

  datatype Label = Label(issuer: Option<Text>, account: Option<Text>)

  function NonEmpty(s: Text): Option<Text> {
    if s == [] then None else Some(s)
  }

  function ParseLabel(text: Text): Result<Label, ModelError> {
    match Cut(text, ':')
    case Some((i, a)) =>
      var issuer :- PercentDecode(i);
      var account :- PercentDecode(a);
      Success(Label(NonEmpty(issuer), Some(account)))
    case None =>
      match EncodedSeparator(text)
      case Some(k) =>
        var issuer :- PercentDecode(text[..k]);
        var account :- PercentDecode(TrimEncodedSpaces(text[k + 3..]));
        Success(Label(NonEmpty(issuer), Some(account)))
      case None =>
        var account :- PercentDecode(text);
        Success(Label(None, NonEmpty(account)))
  }

  datatype Key = SecretKey | IssuerKey | AlgorithmKey | DigitsKey | PeriodKey

  function KeyName(key: Key): Text {
    match key
    case SecretKey => "secret"
    case IssuerKey => "issuer"
    case AlgorithmKey => "algorithm"
    case DigitsKey => "digits"
    case PeriodKey => "period"
  }

  function KeyNamed(name: Text): Option<Key> {
    if name == "secret" then Some(SecretKey)
    else if name == "issuer" then Some(IssuerKey)
    else if name == "algorithm" then Some(AlgorithmKey)
    else if name == "digits" then Some(DigitsKey)
    else if name == "period" then Some(PeriodKey)
    else None
  }

  datatype Query = Query(
    secret: Option<Text>,
    issuer: Option<Option<Text>>,
    algorithm: TotpAlgorithm,
    digits: nat,
    period: nat,
    seen: set<Key>)

  const EMPTY_QUERY := Query(None, None, Sha1, 6, 30, {})

  function ParseAlgorithm(s: Text): Option<TotpAlgorithm> {
    var upper := Upper(s);
    if upper == "SHA1" || upper == "HMAC-SHA-1" then Some(Sha1)
    else if upper == "SHA256" || upper == "HMAC-SHA-256" then Some(Sha256)
    else if upper == "SHA512" || upper == "HMAC-SHA-512" then Some(Sha512)
    else None
  }

  /** Stores one decoded parameter. */
  function StoreParameter(q: Query, key: Key, value: Text): Result<Query, ModelError> {
    var next := q.(seen := q.seen + {key});
    match key
    case SecretKey => Success(next.(secret := Some(value)))
    case IssuerKey => Success(next.(issuer := Some(NonEmpty(value))))
    case AlgorithmKey =>
      var algorithm := ParseAlgorithm(value);
      if algorithm.Some? then Success(next.(algorithm := algorithm.value)) else Failure(Unimplemented)
    case DigitsKey =>
      var n := ParseNumber(value, U32_LIMIT);
      if n.Some? then Success(next.(digits := n.value)) else Failure(Unimplemented)
    case PeriodKey =>
      var n := ParseNumber(value, U64_LIMIT);
      if n.Some? then Success(next.(period := n.value)) else Failure(Unimplemented)
  }

  function ReadPair(q: Query, pair: Text): Result<Query, ModelError> {
    match Cut(pair, '=')
    case None => Failure(Unimplemented)
    case Some((name, encoded)) =>
      var key := KeyNamed(name);
      if key.None? || key.value in q.seen then Failure(Unimplemented)
      else
        var value :- PercentDecode(encoded);
        StoreParameter(q, key.value, value)
  }

  function ReadPairs(q: Query, pairs: seq<Text>): Result<Query, ModelError>
    decreases |pairs|
  {
    if pairs == [] then Success(q)
    else
      var next :- ReadPair(q, pairs[0]);
      ReadPairs(next, pairs[1..])
  }

  function Finish(names: Label, q: Query): Result<TotpSpec, ModelError> {
    var issuer := q.issuer.GetOr(names.issuer);
    if q.secret.None? || q.secret.value == [] then Failure(Unimplemented)
    else if names.account.None? || names.account.value == [] then Failure(Unimplemented)
    else if issuer.None? && ':' in names.account.value then Failure(Unimplemented)
    else if !(1 <= q.digits <= 9) || q.period == 0 then Failure(Unimplemented)
    else Success(TotpSpec(q.secret.value, q.algorithm, q.digits, q.period, issuer, names.account))
  }

  function ParseOtpauth(uri: Text): Result<TotpSpec, ModelError> {
    if |uri| < |PREFIX| || !EqualIgnoringCase(uri[..|PREFIX|], PREFIX) then Failure(Unimplemented)
    else
      match Cut(uri[|PREFIX|..], '?')
      case None => Failure(Unimplemented)
      case Some((labelText, queryText)) =>
        var names :- ParseLabel(labelText);
        var query :- ReadPairs(EMPTY_QUERY, SplitAll(queryText, '&'));
        Finish(names, query)
  }

  // ---- The printer ----

  function AlgorithmName(a: TotpAlgorithm): Text {
    match a
    case Sha1 => "SHA1"
    case Sha256 => "SHA256"
    case Sha512 => "SHA512"
  }

  /** The label and issuer of an entry's URI; the entry's title and user name stand in for missing parts. */
  function PrintedLabel(title: Text, username: Text, spec: TotpSpec): (Text, Option<Text>) {
    if spec.issuer.None? && spec.accountName.Some? && spec.accountName.value != [] then
      (Encode(spec.accountName.value), None)
    else if spec.issuer.None? then
      (Encode(title) + ":" + Encode(username), Some(title))
    else
      (Encode(spec.issuer.value) + ":" + Encode(spec.accountName.GetOr(username)), spec.issuer)
  }

  function Parameter(key: Key, value: Text): Text {
    KeyName(key) + "=" + value
  }

  function WithParameter(query: Text, key: Key, value: Text): Text {
    query + "&" + Parameter(key, value)
  }

  function PrintedQuery(spec: TotpSpec, issuer: Option<Text>): Text {
    var secret := Parameter(SecretKey, Encode(spec.secretBase32));
    var named := if issuer.Some? then WithParameter(secret, IssuerKey, Encode(issuer.value)) else secret;
    var algorithm := WithParameter(named, AlgorithmKey, AlgorithmName(spec.algorithm));
    var digits := WithParameter(algorithm, DigitsKey, Decimal(spec.digits));
    WithParameter(digits, PeriodKey, Decimal(spec.periodSeconds))
  }

  function PrintUri(title: Text, username: Text, spec: TotpSpec): Text {
    var (heading, issuer) := PrintedLabel(title, username, spec);
    PREFIX + heading + "?" + PrintedQuery(spec, issuer)
  }

  // ---- The parser's locals, updated in place ----

  method ParseOtpauthLoop(uri: Text) returns (result: Result<TotpSpec, ModelError>)
    ensures result == ParseOtpauth(uri)
  {
    if |uri| < |PREFIX| || !EqualIgnoringCase(uri[..|PREFIX|], PREFIX) {
      return Failure(Unimplemented);
    }
    var cut := Cut(uri[|PREFIX|..], '?');
    if cut.None? {
      return Failure(Unimplemented);
    }
    var names := ParseLabel(cut.value.0);
    if names.Failure? {
      return Failure(names.error);
    }
    var pairs := SplitAll(cut.value.1, '&');
    var query := EMPTY_QUERY;
    for i := 0 to |pairs|
      invariant ReadPairs(query, pairs[i..]) == ReadPairs(EMPTY_QUERY, pairs)
    {
      assert pairs[i..][1..] == pairs[i + 1..];
      var next := ReadPair(query, pairs[i]);
      if next.Failure? {
        return Failure(next.error);
      }
      query := next.value;
    }
    return Finish(names.value, query);
  }
}
