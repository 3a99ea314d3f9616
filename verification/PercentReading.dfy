/** Percent escapes by their hexadecimal digits, and the byte strings that are UTF-8 by the scalar values they encode. */
module PercentReading {
  import opened Wrappers
  import opened TextOrder
  import opened PercentCoding

  // ---- Escapes ----

  const UPPER_HEX: Text := "0123456789ABCDEF"
  const LOWER_HEX: Text := "0123456789abcdef"

  ghost predicate HexDigit(b: Byte, n: nat) {
    n < 16 && (b == UPPER_HEX[n] || b == LOWER_HEX[n])
  }

  /** The text starts with '%' and the two digits of `16 * high + low`. */
  ghost predicate Escaped(s: Text, high: nat, low: nat) {
    |s| >= 3 && s[0] == '%' && HexDigit(s[1], high) && HexDigit(s[2], low)
  }

  lemma NibbleIsDigit(b: Byte, n: nat)
    ensures Nibble(b) == Some(n) <==> HexDigit(b, n)
  {
    if n < 10 {
      assert UPPER_HEX[n] == LOWER_HEX[n] == ('0' as int + n) as char;
    } else if n < 16 {
      assert UPPER_HEX[n] == ('A' as int + n - 10) as char && LOWER_HEX[n] == ('a' as int + n - 10) as char;
    }
  }

  /** Decoding takes each escape for its byte, and every other byte, a '%' without digits included, for itself. */
  lemma DecodedExactly(s: Text)
    ensures s == [] ==> DecodeBytes(s) == []
    ensures forall high: nat, low: nat :: Escaped(s, high, low) ==>
      DecodeBytes(s) == [(16 * high + low) as char] + DecodeBytes(s[3..])
    ensures s != [] && (forall high: nat, low: nat :: !Escaped(s, high, low)) ==>
      DecodeBytes(s) == [s[0]] + DecodeBytes(s[1..])
  {
    hide HexDigit;
    if |s| >= 3 {
      forall n: nat ensures Nibble(s[1]) == Some(n) <==> HexDigit(s[1], n) {
        NibbleIsDigit(s[1], n);
      }
      forall n: nat ensures Nibble(s[2]) == Some(n) <==> HexDigit(s[2], n) {
        NibbleIsDigit(s[2], n);
      }
      if StartsEscape(s) {
        assert Escaped(s, Nibble(s[1]).value, Nibble(s[2]).value);
      }
    }
  }

  ghost predicate Unreserved(b: Byte) {
    'A' <= b <= 'Z' || 'a' <= b <= 'z' || '0' <= b <= '9' || b in {'-', '.', '_', '~'}
  }

  /** Encoding writes an unreserved byte as itself and any other in two capital digits. */
  lemma EncodedExactly(s: Text)
    requires s != []
    ensures Unreserved(s[0]) ==> Encode(s) == [s[0]] + Encode(s[1..])
    ensures !Unreserved(s[0]) ==> exists high: nat, low: nat ::
      high < 16 && low < 16 && s[0] as int == 16 * high + low
      && Encode(s) == ['%', UPPER_HEX[high], UPPER_HEX[low]] + Encode(s[1..])
  {
    if !Unreserved(s[0]) {
      var high, low := s[0] as int / 16, s[0] as int % 16;
      UpperHex(high);
      UpperHex(low);
      assert Encode(s) == ['%', UPPER_HEX[high], UPPER_HEX[low]] + Encode(s[1..]);
    }
  }

  lemma UpperHex(n: nat)
    requires n < 16
    ensures UpperHexDigit(n) == UPPER_HEX[n]
  {
    if n < 10 {
      assert UPPER_HEX[n] == ('0' as int + n) as char;
    } else {
      assert UPPER_HEX[n] == ('A' as int + n - 10) as char;
    }
  }

  // ---- UTF-8 ----

  /** A Unicode scalar value. */
  ghost predicate IsScalar(c: nat) {
    c < 0xD800 || 0xE000 <= c < 0x11_0000
  }

  ghost predicate Scalars(cs: seq<nat>) {
    forall i :: 0 <= i < |cs| ==> IsScalar(cs[i])
  }

  /** The bytes of a scalar value, as in section 3 of RFC 3629. */
  ghost function ScalarBytes(c: nat): Text
    requires IsScalar(c)
  {
    if c < 0x80 then [c as char]
    else if c < 0x800 then [(0xC0 + c / 0x40) as char, (0x80 + c % 0x40) as char]
    else if c < 0x1_0000 then
      [(0xE0 + c / 0x1000) as char, (0x80 + c / 0x40 % 0x40) as char, (0x80 + c % 0x40) as char]
    else
      [(0xF0 + c / 0x4_0000) as char, (0x80 + c / 0x1000 % 0x40) as char,
       (0x80 + c / 0x40 % 0x40) as char, (0x80 + c % 0x40) as char]
  }

  ghost function Utf8Bytes(cs: seq<nat>): Text
    requires Scalars(cs)
  {
    if cs == [] then [] else ScalarBytes(cs[0]) + Utf8Bytes(cs[1..])
  }

  lemma ScalarAccepted(c: nat, rest: Text)
    requires IsScalar(c) && ValidUtf8(rest)
    ensures ValidUtf8(ScalarBytes(c) + rest)
  {
    var s := ScalarBytes(c) + rest;
    assert s[|ScalarBytes(c)|..] == rest;
  }

  lemma {:induction false} EncodedAccepted(cs: seq<nat>)
    requires Scalars(cs)
    ensures ValidUtf8(Utf8Bytes(cs))
  {
    if cs != [] {
      EncodedAccepted(cs[1..]);
      ScalarAccepted(cs[0], Utf8Bytes(cs[1..]));
    }
  }

  /** Six-bit digits of a number. */
  lemma SixBits(p: nat, q: nat)
    requires q < 0x40
    ensures (p * 0x40 + q) / 0x40 == p && (p * 0x40 + q) % 0x40 == q
  {
  }

  lemma SixBitsTwice(p: nat, q: nat, r: nat)
    requires q < 0x40 && r < 0x40
    ensures var c := p * 0x1000 + q * 0x40 + r;
      c / 0x1000 == p && c / 0x40 == p * 0x40 + q && c / 0x40 % 0x40 == q && c % 0x40 == r
  {
    SixBits(p * 0x40 + q, r);
    SixBits(p, q);
  }

  lemma SixBitsThrice(o: nat, p: nat, q: nat, r: nat)
    requires p < 0x40 && q < 0x40 && r < 0x40
    ensures var c := o * 0x4_0000 + p * 0x1000 + q * 0x40 + r;
      c / 0x4_0000 == o && c / 0x1000 % 0x40 == p && c / 0x40 % 0x40 == q && c % 0x40 == r
  {
    SixBitsTwice(o * 0x40 + p, q, r);
    SixBits(o, p);
  }

  /** The scalar value a well-formed text starts with. */
  lemma FirstScalar(s: Text) returns (c: nat)
    requires s != [] && ValidUtf8(s)
    ensures IsScalar(c) && |ScalarBytes(c)| <= |s| && s[..|ScalarBytes(c)|] == ScalarBytes(c)
    ensures ValidUtf8(s[|ScalarBytes(c)|..])
  {
    if Code(s[0]) < 0x80 {
      c := Code(s[0]);
    } else if Code(s[0]) <= 0xDF {
      c := FirstOfTwo(s);
    } else if Code(s[0]) <= 0xEF {
      c := FirstOfThree(s);
    } else {
      c := FirstOfFour(s);
    }
  }

  lemma FirstOfTwo(s: Text) returns (c: nat)
    requires |s| >= 2 && InRange(s[0], 0xC2, 0xDF) && IsTail(s[1])
    ensures IsScalar(c) && ScalarBytes(c) == s[..2]
  {
    var p, q := Code(s[0]) - 0xC0, Code(s[1]) - 0x80;
    SixBits(p, q);
    c := p * 0x40 + q;
  }

  lemma FirstOfThree(s: Text) returns (c: nat)
    requires |s| >= 3 && InRange(s[0], 0xE0, 0xEF) && IsTail(s[1]) && IsTail(s[2])
    requires Code(s[0]) == 0xE0 ==> Code(s[1]) >= 0xA0
    requires Code(s[0]) == 0xED ==> Code(s[1]) <= 0x9F
    ensures IsScalar(c) && ScalarBytes(c) == s[..3]
  {
    var p, q, r := Code(s[0]) - 0xE0, Code(s[1]) - 0x80, Code(s[2]) - 0x80;
    SixBitsTwice(p, q, r);
    c := p * 0x1000 + q * 0x40 + r;
  }

  lemma FirstOfFour(s: Text) returns (c: nat)
    requires |s| >= 4 && InRange(s[0], 0xF0, 0xF4) && IsTail(s[1]) && IsTail(s[2]) && IsTail(s[3])
    requires Code(s[0]) == 0xF0 ==> Code(s[1]) >= 0x90
    requires Code(s[0]) == 0xF4 ==> Code(s[1]) <= 0x8F
    ensures IsScalar(c) && ScalarBytes(c) == s[..4]
  {
    var o, p, q, r := Code(s[0]) - 0xF0, Code(s[1]) - 0x80, Code(s[2]) - 0x80, Code(s[3]) - 0x80;
    SixBitsThrice(o, p, q, r);
    c := o * 0x4_0000 + p * 0x1000 + q * 0x40 + r;
  }

  lemma {:induction false} AcceptedEncoded(s: Text) returns (cs: seq<nat>)
    requires ValidUtf8(s)
    ensures Scalars(cs) && Utf8Bytes(cs) == s
    decreases |s|
  {
    cs := [];
    if s != [] {
      var c := FirstScalar(s);
      var rest := AcceptedEncoded(s[|ScalarBytes(c)|..]);
      cs := [c] + rest;
      assert cs[1..] == rest;
    }
  }

  /** The check accepts exactly the encodings of sequences of scalar values. */
  lemma Utf8Exactly(s: Text)
    ensures ValidUtf8(s) <==> exists cs: seq<nat> :: Scalars(cs) && Utf8Bytes(cs) == s
  {
    if ValidUtf8(s) {
      var cs := AcceptedEncoded(s);
    }
    if cs: seq<nat> :| Scalars(cs) && Utf8Bytes(cs) == s {
      EncodedAccepted(cs);
    }
  }
}
