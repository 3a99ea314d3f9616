/** The otpauth parser accepts exactly the specifications that its printer can write back. */
module OtpauthRoundTrip {
  import opened Wrappers
  import opened TextOrder
  import opened PercentCoding
  import opened Model
  import opened Otpauth

  /** The form that survives printing. */
  predicate Representable(spec: TotpSpec) {
    && spec.secretBase32 != [] && ValidUtf8(spec.secretBase32)
    && 1 <= spec.digits <= 9
    && 1 <= spec.periodSeconds < U64_LIMIT
    && spec.accountName.Some? && spec.accountName.value != [] && ValidUtf8(spec.accountName.value)
    && (spec.issuer.Some? ==> spec.issuer.value != [] && ValidUtf8(spec.issuer.value))
    && (spec.issuer.None? ==> ':' !in spec.accountName.value)
  }

  // ---- What the parser accepts ----

  ghost predicate GoodText(t: Option<Text>) {
    t.Some? ==> t.value != [] && ValidUtf8(t.value)
  }

  ghost predicate GoodQuery(q: Query) {
    && (q.secret.Some? ==> ValidUtf8(q.secret.value))
    && (q.issuer.Some? ==> GoodText(q.issuer.value))
    && q.digits < U32_LIMIT && q.period < U64_LIMIT
  }

  lemma StoredIsGood(q: Query, key: Key, value: Text)
    requires GoodQuery(q) && ValidUtf8(value) && StoreParameter(q, key, value).Success?
    ensures GoodQuery(StoreParameter(q, key, value).value)
  {
  }

  lemma {:induction false} ReadPairsAreGood(q: Query, pairs: seq<Text>)
    requires GoodQuery(q) && ReadPairs(q, pairs).Success?
    ensures GoodQuery(ReadPairs(q, pairs).value)
    decreases |pairs|
  {
    if pairs != [] {
      var (name, encoded) := Cut(pairs[0], '=').value;
      StoredIsGood(q, KeyNamed(name).value, PercentDecode(encoded).value);
      ReadPairsAreGood(ReadPair(q, pairs[0]).value, pairs[1..]);
    }
  }

  lemma AcceptedIsRepresentable(uri: Text)
    requires ParseOtpauth(uri).Success?
    ensures Representable(ParseOtpauth(uri).value)
  {
    var (heading, queryText) := Cut(uri[|PREFIX|..], '?').value;
    var names := ParseLabel(heading).value;
    assert GoodText(names.issuer) && (names.account.Some? ==> ValidUtf8(names.account.value));
    ReadPairsAreGood(EMPTY_QUERY, SplitAll(queryText, '&'));
  }

  // ---- Reading back what was printed ----

  ghost predicate Plain(s: Text) {
    forall b :: b in s ==> IsUnreserved(b) || b == '%'
  }

  lemma PrefixMatches(rest: Text)
    ensures var uri := PREFIX + rest;
      |uri| >= |PREFIX| && uri[..|PREFIX|] == PREFIX && uri[|PREFIX|..] == rest
  {
  }

  lemma DecimalIsPlain(n: nat)
    ensures Plain(Decimal(n)) && ValidUtf8(Decimal(n)) && DecodeBytes(Decimal(n)) == Decimal(n)
  {
    DecimalValue(n);
    PlainDecodes(Decimal(n));
  }

  lemma {:induction false} PlainDecodes(s: Text)
    requires forall b :: b in s ==> IsUnreserved(b)
    ensures ValidUtf8(s) && DecodeBytes(s) == s
  {
    if s != [] {
      assert s[0] in s;
      PlainDecodes(s[1..]);
      assert s == [s[0]] + s[1..];
    }
  }

  lemma EncodeIsPlain(s: Text)
    requires ValidUtf8(s)
    ensures Plain(Encode(s)) && PercentDecode(Encode(s)) == Success(s)
  {
    EncodedCharacters(s);
    DecodeOfEncode(s);
  }

  lemma KeyReadsBack(key: Key)
    ensures KeyNamed(KeyName(key)) == Some(key)
    ensures '=' !in KeyName(key) && '&' !in KeyName(key)
  {
    assert "secret"[0] == 's' && "issuer"[0] == 'i' && "algorithm"[0] == 'a' && "digits"[0] == 'd' && "period"[0] == 'p';
  }

  lemma ReadParameter(q: Query, key: Key, encoded: Text, value: Text)
    requires key !in q.seen && PercentDecode(encoded) == Success(value)
    ensures ReadPair(q, Parameter(key, encoded)) == StoreParameter(q, key, value)
  {
    KeyReadsBack(key);
    CutAt(KeyName(key), '=', encoded);
    assert KeyName(key) + ['='] + encoded == Parameter(key, encoded);
  }

  lemma AlgorithmReadsBack(a: TotpAlgorithm)
    ensures PercentDecode(AlgorithmName(a)) == Success(AlgorithmName(a))
    ensures ParseAlgorithm(AlgorithmName(a)) == Some(a)
    ensures Plain(AlgorithmName(a))
  {
    PlainDecodes(AlgorithmName(a));
    var name := AlgorithmName(a);
    assert Upper(name) == name;
    assert |"SHA1"| == 4 && |"SHA256"| == 6 && |"HMAC-SHA-1"| == 10;
    assert "SHA512"[3] == '5' && "SHA256"[3] == '2';
  }

  // ---- The printed query is its parameters joined by '&' ----

  datatype Written = Written(key: Key, encoded: Text)

  function WrittenQuery(w: seq<Written>): Text
    requires w != []
  {
    if |w| == 1 then Parameter(w[0].key, w[0].encoded)
    else WithParameter(WrittenQuery(w[..|w| - 1]), w[|w| - 1].key, w[|w| - 1].encoded)
  }

  function WrittenPairs(w: seq<Written>): seq<Text> {
    seq(|w|, i requires 0 <= i < |w| => Parameter(w[i].key, w[i].encoded))
  }

  lemma PlainParameter(w: Written)
    requires Plain(w.encoded)
    ensures '&' !in Parameter(w.key, w.encoded)
  {
    KeyReadsBack(w.key);
  }

  lemma SplitOfAppended(query: Text, last: Written)
    requires '&' !in Parameter(last.key, last.encoded)
    ensures SplitAll(WithParameter(query, last.key, last.encoded), '&')
         == SplitAll(query, '&') + [Parameter(last.key, last.encoded)]
  {
    SplitAppend(query, '&', Parameter(last.key, last.encoded));
    assert "&" == ['&'];
  }

  lemma {:induction false} SplitOfWritten(w: seq<Written>)
    requires w != [] && forall i :: 0 <= i < |w| ==> Plain(w[i].encoded)
    ensures SplitAll(WrittenQuery(w), '&') == WrittenPairs(w)
  {
    hide Parameter, Plain, SplitAll, WithParameter;
    var last := w[|w| - 1];
    PlainParameter(last);
    if |w| == 1 {
      SplitNone(Parameter(last.key, last.encoded), '&');
    } else {
      var init := w[..|w| - 1];
      SplitOfWritten(init);
      SplitOfAppended(WrittenQuery(init), last);
      assert WrittenPairs(w) == WrittenPairs(init) + [Parameter(last.key, last.encoded)];
    }
  }

  function WrittenIssuer(issuer: Option<Text>): seq<Written> {
    if issuer.Some? then [Written(IssuerKey, Encode(issuer.value))] else []
  }

  function WrittenParts(spec: TotpSpec, issuer: Option<Text>): seq<Written> {
    [Written(SecretKey, Encode(spec.secretBase32))] + WrittenIssuer(issuer)
    + [Written(AlgorithmKey, AlgorithmName(spec.algorithm)), Written(DigitsKey, Decimal(spec.digits)),
       Written(PeriodKey, Decimal(spec.periodSeconds))]
  }

  lemma WrittenPush(w: seq<Written>, last: Written)
    requires w != []
    ensures WrittenQuery(w + [last]) == WithParameter(WrittenQuery(w), last.key, last.encoded)
  {
    assert (w + [last])[..|w|] == w;
  }

  lemma PrintedIsWritten(spec: TotpSpec, issuer: Option<Text>)
    ensures PrintedQuery(spec, issuer) == WrittenQuery(WrittenParts(spec, issuer))
  {
    var first := [Written(SecretKey, Encode(spec.secretBase32))];
    var a, d, p := Written(AlgorithmKey, AlgorithmName(spec.algorithm)), Written(DigitsKey, Decimal(spec.digits)),
                   Written(PeriodKey, Decimal(spec.periodSeconds));
    var head := first + WrittenIssuer(issuer);
    if issuer.Some? {
      WrittenPush(first, WrittenIssuer(issuer)[0]);
    } else {
      assert head == first;
    }
    WrittenPush(head, a);
    WrittenPush(head + [a], d);
    WrittenPush(head + [a] + [d], p);
    assert WrittenParts(spec, issuer) == head + [a] + [d] + [p];
  }

  // ---- Reading the parameters one by one ----

  /** Reading a pair, then the rest. */
  lemma ReadNext(q: Query, w: seq<Written>, value: Text, next: Query)
    requires w != [] && w[0].key !in q.seen && PercentDecode(w[0].encoded) == Success(value)
    requires StoreParameter(q, w[0].key, value) == Success(next)
    ensures ReadPairs(q, WrittenPairs(w)) == ReadPairs(next, WrittenPairs(w[1..]))
  {
    ReadParameter(q, w[0].key, w[0].encoded, value);
    assert WrittenPairs(w)[1..] == WrittenPairs(w[1..]);
  }

  /** Every parameter of the specification has a text form that reads back. */
  predicate Readable(spec: TotpSpec) {
    ValidUtf8(spec.secretBase32) && spec.digits < U32_LIMIT && spec.periodSeconds < U64_LIMIT
  }

  lemma ReadTail(q: Query, spec: TotpSpec, w: seq<Written>)
    requires Readable(spec) && q.seen !! {AlgorithmKey, DigitsKey, PeriodKey}
    requires w == [Written(AlgorithmKey, AlgorithmName(spec.algorithm)), Written(DigitsKey, Decimal(spec.digits)),
                   Written(PeriodKey, Decimal(spec.periodSeconds))]
    ensures ReadPairs(q, WrittenPairs(w)) ==
      Success(q.(algorithm := spec.algorithm, digits := spec.digits, period := spec.periodSeconds,
                 seen := q.seen + {AlgorithmKey} + {DigitsKey} + {PeriodKey}))
  {
    hide Decimal, AlgorithmName, ParseAlgorithm, ParseNumber, ValidUtf8, DecodeBytes, Plain, ReadPair;
    assert ReadPairs(q, []) == Success(q);
    AlgorithmReadsBack(spec.algorithm);
    DecimalIsPlain(spec.digits);
    DecimalIsPlain(spec.periodSeconds);
    ParseOfDecimal(spec.digits, U32_LIMIT);
    ParseOfDecimal(spec.periodSeconds, U64_LIMIT);
    var q1 := q.(algorithm := spec.algorithm, seen := q.seen + {AlgorithmKey});
    var q2 := q1.(digits := spec.digits, seen := q1.seen + {DigitsKey});
    var q3 := q2.(period := spec.periodSeconds, seen := q2.seen + {PeriodKey});
    ReadNext(q, w, AlgorithmName(spec.algorithm), q1);
    ReadNext(q1, w[1..], Decimal(spec.digits), q2);
    ReadNext(q2, w[1..][1..], Decimal(spec.periodSeconds), q3);
    assert WrittenPairs(w[1..][1..][1..]) == [];
  }

  lemma ReadParts(spec: TotpSpec, issuer: Option<Text>)
    requires Readable(spec) && (issuer.Some? ==> ValidUtf8(issuer.value))
    ensures var r := ReadPairs(EMPTY_QUERY, WrittenPairs(WrittenParts(spec, issuer)));
      && r.Success?
      && r.value.secret == Some(spec.secretBase32)
      && r.value.issuer == (if issuer.Some? then Some(NonEmpty(issuer.value)) else None)
      && r.value.algorithm == spec.algorithm
      && r.value.digits == spec.digits && r.value.period == spec.periodSeconds
  {
    var w := WrittenParts(spec, issuer);
    EncodeIsPlain(spec.secretBase32);
    var q1 := EMPTY_QUERY.(secret := Some(spec.secretBase32), seen := {SecretKey});
    assert EMPTY_QUERY.seen + {SecretKey} == {SecretKey};
    ReadNext(EMPTY_QUERY, w, spec.secretBase32, q1);
    if issuer.Some? {
      EncodeIsPlain(issuer.value);
      var q2 := q1.(issuer := Some(NonEmpty(issuer.value)), seen := q1.seen + {IssuerKey});
      ReadNext(q1, w[1..], issuer.value, q2);
      ReadTail(q2, spec, w[1..][1..]);
    } else {
      ReadTail(q1, spec, w[1..]);
    }
  }

  lemma PartsArePlain(spec: TotpSpec, issuer: Option<Text>)
    requires Readable(spec) && (issuer.Some? ==> ValidUtf8(issuer.value))
    ensures WrittenParts(spec, issuer) != []
    ensures forall i :: 0 <= i < |WrittenParts(spec, issuer)| ==> Plain(WrittenParts(spec, issuer)[i].encoded)
  {
    EncodeIsPlain(spec.secretBase32);
    if issuer.Some? {
      EncodeIsPlain(issuer.value);
    }
    AlgorithmReadsBack(spec.algorithm);
    DecimalIsPlain(spec.digits);
    DecimalIsPlain(spec.periodSeconds);
  }

  lemma ReadLabel(title: Text, username: Text, spec: TotpSpec)
    requires Representable(spec)
    ensures var (heading, issuer) := PrintedLabel(title, username, spec);
      issuer == spec.issuer && '?' !in heading && ParseLabel(heading) == Success(Label(spec.issuer, spec.accountName))
  {
    var account := spec.accountName.value;
    EncodeIsPlain(account);
    if spec.issuer.None? {
      CutNone(Encode(account), ':');
      NoEncodedSeparator(account);
    } else {
      var issuer := spec.issuer.value;
      EncodeIsPlain(issuer);
      CutAt(Encode(issuer), ':', Encode(account));
      assert Encode(issuer) + [':'] + Encode(account) == Encode(issuer) + ":" + Encode(account);
    }
  }

  /** The parser cuts a printed URI back into its label and its query. */
  lemma UriParts(title: Text, username: Text, spec: TotpSpec, heading: Text, query: Text)
    requires heading == PrintedLabel(title, username, spec).0 && '?' !in heading
    requires query == PrintedQuery(spec, PrintedLabel(title, username, spec).1)
    ensures var uri := PrintUri(title, username, spec);
      && |uri| >= |PREFIX| && EqualIgnoringCase(uri[..|PREFIX|], PREFIX)
      && Cut(uri[|PREFIX|..], '?') == Some((heading, query))
  {
    hide PrintedLabel, PrintedQuery, Cut;
    var rest := heading + "?" + query;
    PrefixMatches(rest);
    assert PREFIX + rest == PrintUri(title, username, spec);
    CutAt(heading, '?', query);
    assert heading + ['?'] + query == rest;
  }

  /** Parsing the printed URI of a representable specification returns it, whatever entry prints it. */
  lemma ParseOfPrint(title: Text, username: Text, spec: TotpSpec)
    requires Representable(spec)
    ensures ParseOtpauth(PrintUri(title, username, spec)) == Success(spec)
  {
    hide PrintedLabel, PrintedQuery, ParseLabel, ReadPairs, SplitAll, WrittenParts, WrittenQuery, WrittenPairs, Upper, Cut;
    var (heading, issuer) := PrintedLabel(title, username, spec);
    ReadLabel(title, username, spec);
    var query := PrintedQuery(spec, issuer);
    UriParts(title, username, spec, heading, query);
    PrintedIsWritten(spec, issuer);
    PartsArePlain(spec, issuer);
    SplitOfWritten(WrittenParts(spec, issuer));
    ReadParts(spec, issuer);
  }

  /** A specification survives printing and parsing exactly when it is representable. */
  lemma RoundTripIsExact(title: Text, username: Text, spec: TotpSpec)
    ensures ParseOtpauth(PrintUri(title, username, spec)) == Success(spec) <==> Representable(spec)
  {
    if Representable(spec) {
      ParseOfPrint(title, username, spec);
    } else if ParseOtpauth(PrintUri(title, username, spec)) == Success(spec) {
      AcceptedIsRepresentable(PrintUri(title, username, spec));
    }
  }

  /** Printing what was parsed and parsing it again changes nothing. */
  lemma ParsePrintParse(title: Text, username: Text, uri: Text)
    requires ParseOtpauth(uri).Success?
    ensures ParseOtpauth(PrintUri(title, username, ParseOtpauth(uri).value)) == ParseOtpauth(uri)
  {
    AcceptedIsRepresentable(uri);
    ParseOfPrint(title, username, ParseOtpauth(uri).value);
  }
}
