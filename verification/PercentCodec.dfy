// Percent-encoding of one path component: sections 2.1 and 2.3 of RFC 3986 over UTF-8.
module PercentCodec {
  import opened Wrappers

  type Byte = b: nat | b < 256

  // ---- UTF-8 --------------------------------------------------------------------------

  function Utf8(c: char): (bytes: seq<Byte>)
    ensures 1 <= |bytes| <= 4
  {
    var n := c as int;
    if n < 0x80 then [n]
    else if n < 0x800 then [0xC0 + n / 64, 0x80 + n % 64]
    else if n < 0x10000 then [0xE0 + n / 4096, 0x80 + n / 64 % 64, 0x80 + n % 64]
    else [0xF0 + n / 262144, 0x80 + n / 4096 % 64, 0x80 + n / 64 % 64, 0x80 + n % 64]
  }

  // How many bytes the first byte of a character announces, and what they spell.
  function Announced(lead: Byte): nat {
    if lead < 0x80 then 1
    else if 0xC0 <= lead < 0xE0 then 2
    else if 0xE0 <= lead < 0xF0 then 3
    else if 0xF0 <= lead < 0xF8 then 4
    else 0
  }

  function Spelled(bytes: seq<Byte>): int
    requires 1 <= |bytes| <= 4
  {
    if |bytes| == 1 then bytes[0] as int
    else if |bytes| == 2 then (bytes[0] as int - 0xC0) * 64 + (bytes[1] as int - 0x80)
    else if |bytes| == 3 then (bytes[0] as int - 0xE0) * 4096 + (bytes[1] as int - 0x80) * 64 + (bytes[2] as int - 0x80)
    else
      (bytes[0] as int - 0xF0) * 262144 + (bytes[1] as int - 0x80) * 4096
      + (bytes[2] as int - 0x80) * 64 + (bytes[3] as int - 0x80)
  }

  predicate IsScalar(n: int) {
    0 <= n < 0xD800 || 0xE000 <= n < 0x110000
  }

  // The character the bytes begin with. Only its one UTF-8 form is accepted: no overlong
  // form, no surrogate.
  function FirstChar(bytes: seq<Byte>): Option<char> {
    if bytes == [] || Announced(bytes[0]) == 0 || |bytes| < Announced(bytes[0]) then None
    else
      var form := bytes[..Announced(bytes[0])];
      if IsScalar(Spelled(form)) && Utf8(Spelled(form) as char) == form then Some(Spelled(form) as char) else None
  }

  lemma {:induction false} SixBits(n: int)
    requires n >= 0
    ensures n / 64 / 64 == n / 4096 && n / 4096 / 64 == n / 262144
    ensures n == n / 64 * 64 + n % 64
    ensures n / 64 == n / 4096 * 64 + n / 64 % 64
    ensures n / 4096 == n / 262144 * 64 + n / 4096 % 64
  {
  }

  lemma {:induction false} Utf8Spells(c: char)
    ensures Announced(Utf8(c)[0]) == |Utf8(c)| && Spelled(Utf8(c)) == c as int
  {
    SixBits(c as int);
  }

  lemma {:induction false} FirstOfUtf8(c: char, bytes: seq<Byte>)
    requires Utf8(c) <= bytes
    ensures FirstChar(bytes) == Some(c)
  {
    Utf8Spells(c);
    assert bytes[..|Utf8(c)|] == Utf8(c);
  }

  // ---- Escapes ------------------------------------------------------------------------

  predicate IsDigit(c: char) { '0' <= c <= '9' }

  predicate IsUnreserved(c: char) {
    'A' <= c <= 'Z' || 'a' <= c <= 'z' || IsDigit(c) || c == '_' || c == '.' || c == '-' || c == '~'
  }

  function HexDigit(n: nat): (c: char)
    requires n < 16
    ensures IsUnreserved(c)
  {
    if n < 10 then ('0' as int + n) as char else ('A' as int + n - 10) as char
  }

  // Reading accepts either case; writing uses upper case.
  function HexValue(c: char): Option<nat> {
    if IsDigit(c) then Some(c as nat - '0' as nat)
    else if 'A' <= c <= 'F' then Some(c as nat - 'A' as nat + 10)
    else if 'a' <= c <= 'f' then Some(c as nat - 'a' as nat + 10)
    else None
  }

  function EscapeByte(b: Byte): string {
    ['%', HexDigit(b / 16), HexDigit(b % 16)]
  }

  function EscapeBytes(bytes: seq<Byte>): string {
    if bytes == [] then "" else EscapeByte(bytes[0]) + EscapeBytes(bytes[1..])
  }

  function EscapeChar(c: char): string {
    if IsUnreserved(c) then [c] else EscapeBytes(Utf8(c))
  }

  // quote(value, safe="")
  function Encode(value: string): string {
    if value == "" then "" else EscapeChar(value[0]) + Encode(value[1..])
  }

  predicate StartsEscape(s: string) {
    |s| >= 3 && s[0] == '%' && HexValue(s[1]).Some? && HexValue(s[2]).Some?
  }

  // The bytes of the escapes the string begins with.
  function EscapedBytes(s: string): seq<Byte> {
    if !StartsEscape(s) then []
    else
      assert HexValue(s[1]).value < 16 && HexValue(s[2]).value < 16;
      [HexValue(s[1]).value * 16 + HexValue(s[2]).value] + EscapedBytes(s[3..])
  }

  const REPLACEMENT: char := 0xFFFD as char

  lemma {:induction false} EscapesTakeThree(s: string, n: nat)
    requires n <= |EscapedBytes(s)|
    ensures 3 * n <= |s|
  {
    if n > 0 { EscapesTakeThree(s[3..], n - 1); }
  }

  // unquote(encoded): permissive. Anything that is not an escape is left alone, and bytes
  // that are not UTF-8 are replaced.
  function Unquote(s: string): string
    decreases |s|
  {
    if s == "" then ""
    else if !StartsEscape(s) then [s[0]] + Unquote(s[1..])
    else
      var c := FirstChar(EscapedBytes(s));
      if c.None? then [REPLACEMENT] + Unquote(s[3..])
      else
        assert 3 * |Utf8(c.value)| <= |s| by { EscapesTakeThree(s, Announced(EscapedBytes(s)[0])); }
        [c.value] + Unquote(s[3 * |Utf8(c.value)|..])
  }

  // Reverses Encode, accepting only what Encode writes.
  function Decode(encoded: string): Option<string> {
    var decoded := Unquote(encoded);
    if Encode(decoded) != encoded then None else Some(decoded)
  }

  // ---- Inverses -----------------------------------------------------------------------

  lemma {:induction false} HexRoundTrip(b: Byte)
    ensures HexValue(HexDigit(b / 16)) == Some(b / 16) && HexValue(HexDigit(b % 16)) == Some(b % 16)
  {
  }

  lemma {:induction false} EscapedAgain(bytes: seq<Byte>, rest: string)
    ensures |EscapeBytes(bytes)| == 3 * |bytes|
    ensures bytes <= EscapedBytes(EscapeBytes(bytes) + rest)
  {
    if bytes != [] {
      var s := EscapeBytes(bytes) + rest;
      HexRoundTrip(bytes[0]);
      EscapedAgain(bytes[1..], rest);
      hide HexValue, HexDigit;
      assert s == EscapeByte(bytes[0]) + (EscapeBytes(bytes[1..]) + rest);
      assert s[3..] == EscapeBytes(bytes[1..]) + rest;
    }
  }

  lemma {:induction false} UnquoteChar(c: char, rest: string)
    ensures Unquote(EscapeChar(c) + rest) == [c] + Unquote(rest)
  {
    var s := EscapeChar(c) + rest;
    if IsUnreserved(c) {
      assert s[1..] == rest;
    } else {
      EscapedAgain(Utf8(c), rest);
      FirstOfUtf8(c, EscapedBytes(s));
      assert s[3 * |Utf8(c)|..] == rest;
    }
  }

  lemma {:induction false} UnquoteEncoded(value: string)
    ensures Unquote(Encode(value)) == value
  {
    if value != "" {
      UnquoteChar(value[0], Encode(value[1..]));
      UnquoteEncoded(value[1..]);
    }
  }

  // Decoding accepts exactly the encodings, and is their inverse.
  lemma {:induction false} DecodeIsInverse(encoded: string, value: string)
    ensures Decode(encoded) == Some(value) <==> encoded == Encode(value)
  {
    UnquoteEncoded(value);
  }

  // ---- Alphabet -----------------------------------------------------------------------

  predicate InAlphabet(c: char) { IsUnreserved(c) || c == '%' }

  lemma {:induction false} EscapeAlphabet(bytes: seq<Byte>)
    ensures forall c :: c in EscapeBytes(bytes) ==> InAlphabet(c)
  {
    if bytes != [] { EscapeAlphabet(bytes[1..]); }
  }

  // None of the characters that delimit a path survives encoding.
  lemma {:induction false} EncodeAlphabet(value: string)
    ensures forall c :: c in Encode(value) ==> InAlphabet(c)
  {
    if value != "" {
      EscapeAlphabet(Utf8(value[0]));
      EncodeAlphabet(value[1..]);
    }
  }

  // ---- Spelling -----------------------------------------------------------------------

  const HEX_DIGITS := "0123456789ABCDEF"

  // A character's bytes: as few as hold it, the continuation bytes from 0x80 to 0xBF.
  lemma {:induction false} Utf8Form(c: char)
    ensures |Utf8(c)| ==
      if c as int < 0x80 then 1 else if c as int < 0x800 then 2 else if c as int < 0x10000 then 3 else 4
    ensures forall i :: 1 <= i < |Utf8(c)| ==> 0x80 <= Utf8(c)[i] < 0xC0
    ensures Announced(Utf8(c)[0]) == |Utf8(c)| && Spelled(Utf8(c)) == c as int
  {
    Utf8Spells(c);
  }

  // Each byte is spelled by a percent sign and two upper-case digits, the high half first.
  lemma {:induction false} EscapesSpell(bytes: seq<Byte>, i: nat)
    requires i < |bytes|
    ensures |EscapeBytes(bytes)| == 3 * |bytes|
    ensures EscapeBytes(bytes)[3 * i..3 * i + 3] == ['%', HEX_DIGITS[bytes[i] / 16], HEX_DIGITS[bytes[i] % 16]]
  {
    EscapedAgain(bytes, "");
    HexSpells(bytes[0]);
    hide HexDigit, EscapedBytes;
    if i > 0 {
      EscapesSpell(bytes[1..], i - 1);
      var rest := EscapeBytes(bytes[1..]);
      assert EscapeBytes(bytes)[3 * i..3 * i + 3] == rest[3 * (i - 1)..3 * (i - 1) + 3];
    }
  }

  lemma {:induction false} HexSpells(b: Byte)
    ensures EscapeByte(b) == ['%', HEX_DIGITS[b / 16], HEX_DIGITS[b % 16]]
  {
  }

  lemma {:induction false} EncodeJoins(a: string, b: string)
    ensures Encode(a + b) == Encode(a) + Encode(b)
  {
    hide EscapeChar;
    if a == "" {
      assert a + b == b;
    } else {
      EncodeJoins(a[1..], b);
      var first, rest := EscapeChar(a[0]), Encode(a[1..]);
      assert (a + b)[1..] == a[1..] + b;
      assert Encode(a + b) == first + Encode(a[1..] + b);
      assert Encode(a) == first + rest;
      hide Encode;
      assert first + (rest + Encode(b)) == (first + rest) + Encode(b);
    }
  }

  // What is unreserved stands for itself, any other character for the escapes of its bytes,
  // each on its own.
  lemma {:induction false} EncodeSpells(before: string, c: char, after: string)
    ensures Encode(before + [c] + after) ==
      Encode(before) + (if IsUnreserved(c) then [c] else EscapeBytes(Utf8(c))) + Encode(after)
  {
    hide EscapeBytes, Utf8;
    EncodeJoins(before + [c], after);
    EncodeJoins(before, [c]);
    assert [c][1..] == "" && Encode("") == "";
    assert Encode([c]) == EscapeChar(c);
  }

  lemma {:induction false} ReadableStays(value: string)
    requires forall c :: c in value ==> IsUnreserved(c)
    ensures Encode(value) == value
  {
    if value != "" {
      assert value[0] in value;
      ReadableStays(value[1..]);
      assert value == [value[0]] + value[1..];
    }
  }

  // A separator inside a component is escaped, and only the upper-case escape of it is read.
  lemma {:induction false} SlashIsEscaped()
    ensures Encode("a/b") == "a%2Fb" && Decode("a%2Fb") == Some("a/b") && Decode("a%2fb").None?
  {
    EncodeSpells("a", '/', "b");
    HexSpells(0x2F);
    assert Utf8('/') == [0x2F];
    assert EscapeBytes([0x2F]) == "%2F";
    ReadableStays("a");
    ReadableStays("b");
    assert "a" + ['/'] + "b" == "a/b";
    assert Encode("a/b") == "a%2Fb";
    DecodeIsInverse("a%2Fb", "a/b");
    LowerCaseIsRefused();
  }

  lemma {:induction false} LowerCaseIsRefused()
    ensures Decode("a%2fb").None?
  {
    var s := "a%2fb";
    if Decode(s).Some? {
      var value := Decode(s).value;
      DecodeIsInverse(s, value);
      NoLowerHex(value, 1);
    }
  }

  // Where an encoding has a percent sign, two of the digits follow.
  lemma {:induction false} NoLowerHex(value: string, i: nat)
    requires i < |Encode(value)| && Encode(value)[i] == '%'
    ensures i + 2 < |Encode(value)| && Encode(value)[i + 1] in HEX_DIGITS && Encode(value)[i + 2] in HEX_DIGITS
  {
    var first := EscapeChar(value[0]);
    assert Encode(value) == first + Encode(value[1..]);
    if i < |first| {
      if !IsUnreserved(value[0]) { EscapesHold(Utf8(value[0]), i); }
    } else {
      NoLowerHex(value[1..], i - |first|);
    }
  }

  lemma {:induction false} EscapesHold(bytes: seq<Byte>, i: nat)
    requires i < |EscapeBytes(bytes)| && EscapeBytes(bytes)[i] == '%'
    ensures i + 2 < |EscapeBytes(bytes)|
    ensures EscapeBytes(bytes)[i + 1] in HEX_DIGITS && EscapeBytes(bytes)[i + 2] in HEX_DIGITS
  {
    HexSpells(bytes[0]);
    if i >= 3 { EscapesHold(bytes[1..], i - 3); }
  }
}
