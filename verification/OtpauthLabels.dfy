/** What a printed URI reads back as, whether or not its label has the invertible form. */
module OtpauthLabels {
  import opened Wrappers
  import opened TextOrder
  import opened PercentCoding
  import opened Model
  import opened Otpauth
  import opened OtpauthRoundTrip

  /** What the program's types guarantee: text is UTF-8 and numbers have their widths. */
  predicate Typed(title: Text, username: Text, spec: TotpSpec) {
    && ValidUtf8(title) && ValidUtf8(username) && Readable(spec)
    && (spec.issuer.Some? ==> ValidUtf8(spec.issuer.value))
    && (spec.accountName.Some? ==> ValidUtf8(spec.accountName.value))
  }

  /** No issuer, but an account: the label is the account alone. */
  predicate AccountAlone(spec: TotpSpec) {
    spec.issuer.None? && spec.accountName.Some? && spec.accountName.value != []
  }

  function DropSpaces(s: Text): Text {
    if s != [] && s[0] == ' ' then DropSpaces(s[1..]) else s
  }

  /** The issuer and account that the printed label spells. */
  function ReadBack(title: Text, username: Text, spec: TotpSpec): (Option<Text>, Text) {
    if AccountAlone(spec) then
      match Cut(spec.accountName.value, ':')
      case None => (None, spec.accountName.value)
      case Some((before, after)) => (NonEmpty(before), DropSpaces(after))
    else if spec.issuer.None? then (NonEmpty(title), username)
    else (NonEmpty(spec.issuer.value), spec.accountName.GetOr(username))
  }

  // ---- Encoded colons and spaces ----

  lemma SeparatorShift(b: Byte, rest: Text)
    requires b != ':' && EncodedSeparator(rest).Some?
    ensures EncodedSeparator(EncodeByte(b) + rest) == Some(|EncodeByte(b)| + EncodedSeparator(rest).value)
  {
    var s := EncodeByte(b) + rest;
    if IsUnreserved(b) {
      assert s[1..] == rest;
    } else {
      assert s[1..][1..][1..] == rest;
      assert s[1..][0] != '%' && s[1..][1..][0] != '%';
      assert EncodedSeparator(s[1..][1..]) == Some(1 + EncodedSeparator(rest).value);
      assert EncodedSeparator(s[1..]) == Some(2 + EncodedSeparator(rest).value);
    }
  }

  lemma {:induction false} EncodeAppend(s: Text, t: Text)
    ensures Encode(s + t) == Encode(s) + Encode(t)
  {
    if s == [] {
      assert s + t == t;
    } else {
      assert (s + t)[1..] == s[1..] + t;
      EncodeAppend(s[1..], t);
    }
  }

  lemma EncodedColon(before: Text, after: Text)
    ensures Encode(before + [':'] + after) == Encode(before) + (['%', '3', 'A'] + Encode(after))
  {
    assert before + [':'] + after == before + ([':'] + after);
    EncodeAppend(before, [':'] + after);
    assert ([':'] + after)[1..] == after;
    assert EncodeByte(':') == ['%', '3', 'A'];
  }

  lemma FirstSeparator(rest: Text)
    ensures EncodedSeparator(['%', '3', 'A'] + rest) == Some(0)
  {
  }

  /** The encoded separator of a text stands where its first colon was. */
  lemma {:induction false} SeparatorAtColon(before: Text, rest: Text)
    requires ':' !in before
    ensures EncodedSeparator(Encode(before) + (['%', '3', 'A'] + rest)) == Some(|Encode(before)|)
  {
    hide EncodedSeparator, EncodeByte;
    var tail := ['%', '3', 'A'] + rest;
    if before == [] {
      FirstSeparator(rest);
      assert Encode(before) + tail == tail;
    } else {
      SeparatorAtColon(before[1..], rest);
      SeparatorShift(before[0], Encode(before[1..]) + tail);
      assert Encode(before) + tail == EncodeByte(before[0]) + (Encode(before[1..]) + tail);
    }
  }

  lemma {:induction false} TrimOfEncode(s: Text)
    ensures TrimEncodedSpaces(Encode(s)) == Encode(DropSpaces(s))
  {
    if s != [] {
      if s[0] == ' ' {
        assert EncodeByte(' ') == ['%', '2', '0'];
        assert Encode(s)[3..] == Encode(s[1..]);
        TrimOfEncode(s[1..]);
      } else if !IsUnreserved(s[0]) {
        NotASpace(s[0]);
      }
    }
  }

  lemma NotASpace(b: Byte)
    requires !IsUnreserved(b) && b != ' '
    ensures EncodeByte(b)[1] != '2' || EncodeByte(b)[2] != '0'
  {
    assert Code(b) == 16 * (Code(b) / 16) + Code(b) % 16;
  }

  /** Cutting UTF-8 at a colon leaves UTF-8 on both sides. */
  lemma {:induction false} Utf8Cut(before: Text, after: Text)
    requires ValidUtf8(before + [':'] + after)
    ensures ValidUtf8(before) && ValidUtf8(after)
    decreases |before|
  {
    var whole := before + [':'] + after;
    if before == [] {
      assert whole[1..] == after;
    } else {
      var n := if Code(whole[0]) < 0x80 then 1
               else if InRange(whole[0], 0xC2, 0xDF) then 2
               else if InRange(whole[0], 0xE0, 0xEF) then 3 else 4;
      assert whole[|before|] == ':';
      assert n <= |before|;
      assert whole[n..] == before[n..] + [':'] + after;
      Utf8Cut(before[n..], after);
      assert forall k :: 0 <= k < n ==> before[k] == whole[k];
    }
  }

  lemma {:induction false} Utf8DropSpaces(s: Text)
    requires ValidUtf8(s)
    ensures ValidUtf8(DropSpaces(s))
  {
    if s != [] && s[0] == ' ' {
      Utf8DropSpaces(s[1..]);
    }
  }

  // ---- Reading the label ----

  lemma ReadAlone(account: Text)
    requires account != [] && ValidUtf8(account)
    ensures '?' !in Encode(account) && ':' !in Encode(account)
    ensures ParseLabel(Encode(account)) ==
      match Cut(account, ':')
      case None => Success(Label(None, Some(account)))
      case Some((before, after)) => Success(Label(NonEmpty(before), Some(DropSpaces(after))))
  {
    PlainLabel(account);
    hide Encode, ValidUtf8, EncodedSeparator, TrimEncodedSpaces, PercentDecode, DropSpaces;
    CutNone(Encode(account), ':');
    CutIsExact(account, ':');
    match Cut(account, ':')
    case None => NoEncodedSeparator(account);
    case Some((before, after)) => DecodeAroundColon(before, after);
  }

  lemma PlainLabel(s: Text)
    requires ValidUtf8(s)
    ensures '?' !in Encode(s) && ':' !in Encode(s) && PercentDecode(Encode(s)) == Success(s)
  {
    hide Encode, ValidUtf8, PercentDecode;
    EncodeIsPlain(s);
  }

  /** Both sides of an encoded colon are decoded to the texts around it, leading spaces aside. */
  lemma DecodeAroundColon(before: Text, after: Text)
    requires ':' !in before && ValidUtf8(before + [':'] + after)
    ensures var text, k := Encode(before + [':'] + after), |Encode(before)|;
      && EncodedSeparator(text) == Some(k)
      && PercentDecode(text[..k]) == Success(before)
      && PercentDecode(TrimEncodedSpaces(text[k + 3..])) == Success(DropSpaces(after))
  {
    hide Plain, Encode, ValidUtf8, EncodedSeparator, TrimEncodedSpaces, PercentDecode, DropSpaces;
    EncodedColon(before, after);
    SeparatorAtColon(before, Encode(after));
    Utf8Cut(before, after);
    Utf8DropSpaces(after);
    TrimOfEncode(after);
    EncodeIsPlain(before);
    EncodeIsPlain(DropSpaces(after));
    var text, k := Encode(before + [':'] + after), |Encode(before)|;
    assert text[..k] == Encode(before);
    assert text[k + 3..] == Encode(after);
  }

  lemma ReadBothParts(issuer: Text, account: Text)
    requires ValidUtf8(issuer) && ValidUtf8(account)
    ensures var text := Encode(issuer) + ":" + Encode(account);
      '?' !in text && ParseLabel(text) == Success(Label(NonEmpty(issuer), Some(account)))
  {
    EncodeIsPlain(issuer);
    EncodeIsPlain(account);
    assert ':' !in Encode(issuer) && '?' !in Encode(issuer) && '?' !in Encode(account);
    hide Plain, Encode, ValidUtf8, EncodedSeparator, Cut, TrimEncodedSpaces, PercentDecode;
    CutAt(Encode(issuer), ':', Encode(account));
    assert Encode(issuer) + [':'] + Encode(account) == Encode(issuer) + ":" + Encode(account);
  }

  lemma ReadAnyLabel(title: Text, username: Text, spec: TotpSpec)
    requires Typed(title, username, spec)
    ensures var (heading, issuer) := PrintedLabel(title, username, spec);
      var (i, a) := ReadBack(title, username, spec);
      && '?' !in heading && ParseLabel(heading) == Success(Label(i, Some(a)))
      && (issuer.Some? ==> ValidUtf8(issuer.value) && NonEmpty(issuer.value) == i)
  {
    hide ValidUtf8, ParseLabel, Encode;
    if AccountAlone(spec) {
      ReadAlone(spec.accountName.value);
    } else if spec.issuer.None? {
      ReadBothParts(title, username);
    } else {
      ReadBothParts(spec.issuer.value, spec.accountName.GetOr(username));
    }
  }

  /** The printed URI is refused for its label. */
  predicate LabelRefused(issuer: Option<Text>, account: Text) {
    account == [] || (issuer.None? && ':' in account)
  }

  predicate GoodParameters(spec: TotpSpec) {
    spec.secretBase32 != [] && 1 <= spec.digits <= 9 && spec.periodSeconds != 0
  }

  /** Parsing any printed URI gives the specification back with the label as it reads, or refuses it. */
  lemma ParseOfAnyPrint(title: Text, username: Text, spec: TotpSpec)
    requires Typed(title, username, spec)
    ensures var (i, a) := ReadBack(title, username, spec);
      ParseOtpauth(PrintUri(title, username, spec)) ==
        if GoodParameters(spec) && !LabelRefused(i, a) then Success(spec.(issuer := i, accountName := Some(a)))
        else Failure(Unimplemented)
  {
    hide PrintedLabel, PrintedQuery, ParseLabel, ReadPairs, SplitAll, WrittenParts, WrittenQuery, WrittenPairs, Upper,
         Cut, ReadBack, ValidUtf8;
    var (heading, issuer) := PrintedLabel(title, username, spec);
    ReadAnyLabel(title, username, spec);
    var query := PrintedQuery(spec, issuer);
    UriParts(title, username, spec, heading, query);
    PrintedIsWritten(spec, issuer);
    PartsArePlain(spec, issuer);
    SplitOfWritten(WrittenParts(spec, issuer));
    ReadParts(spec, issuer);
  }

  // ---- Printing it again ----

  predicate OnlySpaces(s: Text) {
    forall i :: 0 <= i < |s| ==> s[i] == ' '
  }

  /** The label of a specification that names an issuer, or no account: issuer, or else title, and account. */
  function LabelIssuer(title: Text, spec: TotpSpec): Text {
    spec.issuer.GetOr(title)
  }

  function LabelAccount(username: Text, spec: TotpSpec): Text {
    if spec.issuer.None? then username else spec.accountName.GetOr(username)
  }

  /**
    Printing, reading and printing again spells another label: an account alone
    has a colon with more than spaces behind it and is split there, or an empty
    issuer in front of a plain account is dropped.
   */
  predicate LabelShifts(title: Text, username: Text, spec: TotpSpec) {
    && GoodParameters(spec)
    && if AccountAlone(spec) then
         match Cut(spec.accountName.value, ':')
         case None => false
         case Some((before, after)) => !OnlySpaces(after) && (before == [] ==> ':' !in after)
       else
         && LabelIssuer(title, spec) == []
         && LabelAccount(username, spec) != [] && ':' !in LabelAccount(username, spec)
  }

  /** What the URI reads back as is accepted and has another label. */
  predicate ReadsShifted(title: Text, username: Text, spec: TotpSpec) {
    var (i, a) := ReadBack(title, username, spec);
    && GoodParameters(spec) && !LabelRefused(i, a)
    && (if AccountAlone(spec) then ':' in spec.accountName.value else i.None?)
  }

  lemma {:induction false} DroppedSpaces(s: Text)
    ensures DropSpaces(s) == [] <==> OnlySpaces(s)
    ensures ':' in DropSpaces(s) <==> ':' in s
  {
    if s != [] && s[0] == ' ' {
      DroppedSpaces(s[1..]);
      assert s == [' '] + s[1..];
    }
  }

  lemma ShiftsAsRead(title: Text, username: Text, spec: TotpSpec)
    ensures LabelShifts(title, username, spec) <==> ReadsShifted(title, username, spec)
  {
    if AccountAlone(spec) {
      CutIsExact(spec.accountName.value, ':');
      match Cut(spec.accountName.value, ':') {
        case Some((before, after)) => DroppedSpaces(after);
        case None =>
      }
    }
  }

  lemma {:induction false} EncodeGrows(s: Text)
    ensures |Encode(s)| >= |s|
  {
    if s != [] {
      EncodeGrows(s[1..]);
    }
  }

  lemma {:induction false} DropSpacesIsEnd(s: Text) returns (k: nat)
    ensures k <= |s| && DropSpaces(s) == s[k..]
  {
    if s != [] && s[0] == ' ' {
      var j := DropSpacesIsEnd(s[1..]);
      k := j + 1;
      assert s[1..][j..] == s[k..];
    } else {
      k := 0;
    }
  }

  /** An account with a colon is longer encoded than what is left of it behind the colon. */
  lemma TailIsShorter(account: Text, before: Text, after: Text)
    requires account == before + [':'] + after
    ensures |Encode(DropSpaces(after))| < |Encode(account)|
  {
    var k := DropSpacesIsEnd(after);
    var lead := before + [':'] + after[..k];
    assert account == lead + after[k..];
    EncodeAppend(lead, after[k..]);
    EncodeGrows(lead);
  }

  /** Equal URIs have equal labels. */
  lemma SameUriSameLabel(title: Text, username: Text, a: TotpSpec, b: TotpSpec)
    requires Typed(title, username, a) && Typed(title, username, b)
    requires PrintUri(title, username, a) == PrintUri(title, username, b)
    ensures PrintedLabel(title, username, a).0 == PrintedLabel(title, username, b).0
  {
    hide PrintedLabel, PrintedQuery, ParseLabel, Cut, ReadBack, Typed, Upper;
    var (x, i) := PrintedLabel(title, username, a);
    var (y, j) := PrintedLabel(title, username, b);
    ReadAnyLabel(title, username, a);
    ReadAnyLabel(title, username, b);
    UriParts(title, username, a, x, PrintedQuery(a, i));
    UriParts(title, username, b, y, PrintedQuery(b, j));
  }

  lemma TypedReadBack(title: Text, username: Text, spec: TotpSpec)
    requires Typed(title, username, spec)
    ensures var (i, a) := ReadBack(title, username, spec);
      Typed(title, username, spec.(issuer := i, accountName := Some(a)))
  {
    if AccountAlone(spec) && Cut(spec.accountName.value, ':').Some? {
      CutIsExact(spec.accountName.value, ':');
      var (before, after) := Cut(spec.accountName.value, ':').value;
      Utf8Cut(before, after);
      Utf8DropSpaces(after);
    }
  }

  lemma ShiftedLabel(title: Text, username: Text, spec: TotpSpec)
    requires Typed(title, username, spec) && ReadsShifted(title, username, spec)
    ensures var (i, a) := ReadBack(title, username, spec);
      PrintedLabel(title, username, spec.(issuer := i, accountName := Some(a))).0 != PrintedLabel(title, username, spec).0
  {
    var (i, a) := ReadBack(title, username, spec);
    if AccountAlone(spec) {
      var account := spec.accountName.value;
      CutIsExact(account, ':');
      var (before, after) := Cut(account, ':').value;
      EncodeIsPlain(account);
      if i.None? {
        TailIsShorter(account, before, after);
      } else {
        var again := Encode(i.value) + ":" + Encode(a);
        assert again[|Encode(i.value)|] == ':';
        assert ':' in again && ':' !in Encode(account);
      }
    } else {
      var issuer := if spec.issuer.None? then title else spec.issuer.value;
      assert issuer == [] && Encode(issuer) == [];
      assert |Encode(issuer) + ":" + Encode(a)| == 1 + |Encode(a)|;
    }
  }

  /** A printed URI that is parsed is printed alike again exactly when its label does not shift. */
  lemma PrintedAlike(title: Text, username: Text, spec: TotpSpec)
    requires Typed(title, username, spec)
    ensures var parsed := ParseOtpauth(PrintUri(title, username, spec));
      (parsed.Success? ==> PrintUri(title, username, parsed.value) == PrintUri(title, username, spec))
        <==> !LabelShifts(title, username, spec)
  {
    ShiftsAsRead(title, username, spec);
    hide PrintUri, ParseOtpauth, Typed, ReadPairs, LabelShifts;
    ParseOfAnyPrint(title, username, spec);
    var (i, a) := ReadBack(title, username, spec);
    var again := spec.(issuer := i, accountName := Some(a));
    if LabelShifts(title, username, spec) {
      ShiftedLabel(title, username, spec);
      TypedReadBack(title, username, spec);
      if PrintUri(title, username, again) == PrintUri(title, username, spec) {
        SameUriSameLabel(title, username, again, spec);
      }
    } else if GoodParameters(spec) && !LabelRefused(i, a) {
      UnshiftedUri(title, username, spec, again);
    }
  }

  lemma UnshiftedUri(title: Text, username: Text, spec: TotpSpec, again: TotpSpec)
    requires GoodParameters(spec) && !ReadsShifted(title, username, spec)
    requires var (i, a) := ReadBack(title, username, spec);
      !LabelRefused(i, a) && again == spec.(issuer := i, accountName := Some(a))
    ensures PrintUri(title, username, again) == PrintUri(title, username, spec)
  {
    hide Encode, Decimal;
    if AccountAlone(spec) {
      CutNone(spec.accountName.value, ':');
    }
    assert PrintedLabel(title, username, again) == PrintedLabel(title, username, spec);
  }

  const COLON_ACCOUNT: TotpSpec := TotpSpec("AB", Sha1, 6, 30, None, Some("a:b"))

  /** An account with a colon in it, and no issuer, is read back as an issuer and an account. */
  lemma ColonAccountShifts(title: Text, username: Text)
    requires ValidUtf8(title) && ValidUtf8(username)
    ensures Typed(title, username, COLON_ACCOUNT) && LabelShifts(title, username, COLON_ACCOUNT)
    ensures ParseOtpauth(PrintUri(title, username, COLON_ACCOUNT))
         == Success(COLON_ACCOUNT.(issuer := Some("a"), accountName := Some("b")))
  {
    hide PrintUri, ParseOtpauth, LabelShifts, ReadBack, LabelRefused;
    assert ValidUtf8("AB") && ValidUtf8("a:b");
    ColonAccountReads(title, username);
    ParseOfAnyPrint(title, username, COLON_ACCOUNT);
  }

  lemma ColonAccountReads(title: Text, username: Text)
    ensures LabelShifts(title, username, COLON_ACCOUNT)
    ensures ReadBack(title, username, COLON_ACCOUNT) == (Some("a"), "b") && !LabelRefused(Some("a"), "b")
  {
    var account: Text := "a:b";
    var rest: Text := ":b";
    assert account[1..] == rest && rest[0] == ':' && rest[1..] == "b";
    assert Cut(rest, ':') == Some(([], "b"));
    assert account[0] == 'a' && [account[0]] + [] == "a";
    assert Cut(account, ':') == Some(("a", "b"));
    var after: Text := "b";
    assert after[0] == 'b' && DropSpaces(after) == after;
  }
}
