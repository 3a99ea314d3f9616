/** Percent coding over the unreserved set of section 2.3 of RFC 3986. */
module PercentCoding {
  import opened Wrappers
  import opened TextOrder

  datatype ModelError = Unimplemented

  function Code(b: Byte): nat {
    b as int
  }

  predicate IsUnreserved(b: Byte) {
    'A' <= b <= 'Z' || 'a' <= b <= 'z' || '0' <= b <= '9' || b == '-' || b == '.' || b == '_' || b == '~'
  }

  function UpperHexDigit(n: nat): Byte
    requires n < 16
  {
    if n < 10 then ('0' as int + n) as char else ('A' as int + n - 10) as char
  }

  function Nibble(b: Byte): Option<nat> {
    if '0' <= b <= '9' then Some(b as int - '0' as int)
    else if 'a' <= b <= 'f' then Some(b as int - 'a' as int + 10)
    else if 'A' <= b <= 'F' then Some(b as int - 'A' as int + 10)
    else None
  }

  function EncodeByte(b: Byte): Text {
    if IsUnreserved(b) then [b] else ['%', UpperHexDigit(Code(b) / 16), UpperHexDigit(Code(b) % 16)]
  }

  function Encode(s: Text): Text {
    if s == [] then [] else EncodeByte(s[0]) + Encode(s[1..])
  }

  /** An escape is read only when both digits are hexadecimal; any other '%' stands for itself. */
  predicate StartsEscape(s: Text) {
    |s| >= 3 && s[0] == '%' && Nibble(s[1]).Some? && Nibble(s[2]).Some?
  }

  function EscapedByte(s: Text): Byte
    requires StartsEscape(s)
  {
    NibbleRange(s[1]);
    NibbleRange(s[2]);
    (Nibble(s[1]).value * 16 + Nibble(s[2]).value) as char
  }

  lemma NibbleRange(b: Byte)
    ensures Nibble(b).Some? ==> Nibble(b).value < 16
  {
  }

  function DecodeBytes(s: Text): Text {
    if s == [] then []
    else if StartsEscape(s) then [EscapedByte(s)] + DecodeBytes(s[3..])
    else [s[0]] + DecodeBytes(s[1..])
  }

  predicate InRange(b: Byte, low: nat, high: nat) {
    low <= Code(b) <= high
  }

  predicate IsTail(b: Byte) {
    InRange(b, 0x80, 0xBF)
  }

  /** Well-formed UTF-8 as in section 4 of RFC 3629. */
  predicate ValidUtf8(s: Text) {
    || s == []
    || (Code(s[0]) < 0x80 && ValidUtf8(s[1..]))
    || (|s| >= 2 && InRange(s[0], 0xC2, 0xDF) && IsTail(s[1]) && ValidUtf8(s[2..]))
    || (|s| >= 3 && IsTail(s[2]) && ValidUtf8(s[3..])
        && (|| (Code(s[0]) == 0xE0 && InRange(s[1], 0xA0, 0xBF))
            || (Code(s[0]) == 0xED && InRange(s[1], 0x80, 0x9F))
            || ((InRange(s[0], 0xE1, 0xEC) || InRange(s[0], 0xEE, 0xEF)) && IsTail(s[1]))))
    || (|s| >= 4 && IsTail(s[2]) && IsTail(s[3]) && ValidUtf8(s[4..])
        && (|| (Code(s[0]) == 0xF0 && InRange(s[1], 0x90, 0xBF))
            || (Code(s[0]) == 0xF4 && InRange(s[1], 0x80, 0x8F))
            || (InRange(s[0], 0xF1, 0xF3) && IsTail(s[1]))))
  }

  function PercentDecode(s: Text): Result<Text, ModelError> {
    if ValidUtf8(DecodeBytes(s)) then Success(DecodeBytes(s)) else Failure(Unimplemented)
  }

  // ---- Decoding undoes encoding ----

  lemma EncodedByte(b: Byte, rest: Text)
    ensures DecodeBytes(EncodeByte(b) + rest) == [b] + DecodeBytes(rest)
  {
    var s := EncodeByte(b) + rest;
    if IsUnreserved(b) {
      assert s[1..] == rest;
    } else {
      assert s[3..] == rest;
      assert StartsEscape(s) && EscapedByte(s) == b;
    }
  }

  lemma {:induction false} DecodeOfEncode(s: Text)
    ensures DecodeBytes(Encode(s)) == s
    ensures ValidUtf8(s) ==> PercentDecode(Encode(s)) == Success(s)
  {
    if s != [] {
      EncodedByte(s[0], Encode(s[1..]));
      DecodeOfEncode(s[1..]);
      assert s == [s[0]] + s[1..];
    }
  }

  /** Encoded text uses only unreserved characters and '%'. */
  lemma {:induction false} EncodedCharacters(s: Text)
    ensures forall b :: b in Encode(s) ==> IsUnreserved(b) || b == '%'
    ensures Encode(s) == [] <==> s == []
  {
    if s != [] {
      EncodedCharacters(s[1..]);
    }
  }

  // ---- The encoded label separator ----

  /** The position of the first "%3A", in either case. */
  function EncodedSeparator(s: Text): (at: Option<nat>)
    ensures at.Some? ==> at.value + 3 <= |s|
  {
    if |s| < 3 then None
    else if s[0] == '%' && s[1] == '3' && (s[2] == 'A' || s[2] == 'a') then Some(0)
    else match EncodedSeparator(s[1..])
      case Some(k) => Some(k + 1)
      case None => None
  }

  lemma SeparatorSkips(b: Byte, rest: Text)
    requires b != ':' && EncodedSeparator(rest) == None
    ensures EncodedSeparator(EncodeByte(b) + rest) == None
  {
    var s := EncodeByte(b) + rest;
    if IsUnreserved(b) {
      assert s[1..] == rest;
    } else {
      assert s[1..][1..][1..] == rest;
      assert s[1..][0] != '%' && s[1..][1..][0] != '%';
      assert EncodedSeparator(s[1..][1..]) == None;
      assert EncodedSeparator(s[1..]) == None;
    }
  }

  /** Encoded text holds an encoded separator only where the text held a colon. */
  lemma {:induction false} NoEncodedSeparator(s: Text)
    requires ':' !in s
    ensures EncodedSeparator(Encode(s)) == None
  {
    if s != [] {
      NoEncodedSeparator(s[1..]);
      SeparatorSkips(s[0], Encode(s[1..]));
    }
  }

  // ---- The decoding loop ----

  /** One step of decoding from position `index`. */
  lemma DecodeStep(decoded: Text, input: Text, index: nat)
    requires index < |input|
    ensures var s := input[index..];
      if StartsEscape(s) then
        decoded + DecodeBytes(s) == decoded + [EscapedByte(s)] + DecodeBytes(input[index + 3..])
      else decoded + DecodeBytes(s) == decoded + [input[index]] + DecodeBytes(input[index + 1..])
  {
    var s := input[index..];
    if StartsEscape(s) {
      assert s[3..] == input[index + 3..];
    } else {
      assert s[1..] == input[index + 1..];
    }
  }

  lemma DecodeEnds(decoded: Text, input: Text)
    ensures decoded + DecodeBytes(input[|input|..]) == decoded
  {
    assert input[|input|..] == [];
  }

  method PercentDecodeLoop(input: Text) returns (result: Result<Text, ModelError>)
    ensures result == PercentDecode(input)
  {
    hide DecodeBytes, Nibble, ValidUtf8;
    var decoded: Text := [];
    var index := 0;
    assert input[0..] == input && [] + DecodeBytes(input) == DecodeBytes(input);
    while index < |input|
      invariant 0 <= index <= |input|
      invariant decoded + DecodeBytes(input[index..]) == DecodeBytes(input)
    {
      DecodeStep(decoded, input, index);
      if input[index] == '%' && index + 2 < |input| {
        var high, low := Nibble(input[index + 1]), Nibble(input[index + 2]);
        if high.Some? && low.Some? {
          NibbleRange(input[index + 1]);
          NibbleRange(input[index + 2]);
          decoded := decoded + [(high.value * 16 + low.value) as char];
          index := index + 3;
          continue;
        }
      }
      decoded := decoded + [input[index]];
      index := index + 1;
    }
    DecodeEnds(decoded, input);
    return if ValidUtf8(decoded) then Success(decoded) else Failure(Unimplemented);
  }
}
