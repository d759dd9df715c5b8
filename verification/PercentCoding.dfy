/**
  encodeURIComponent and decodeURIComponent. A Dafny character is a Unicode scalar value, so a string here is
  exactly one on which encodeURIComponent does not throw.
  */
module PercentCoding {
  import opened Text

  type Byte = b: int | 0 <= b < 256

  /** The UTF-8 bytes of a code point. */
  function Utf8(c: char): seq<Byte> {
    var n := c as int;
    if n < 0x80 then [n]
    else if n < 0x800 then [0xC0 + n / 64, 0x80 + n % 64]
    else if n < 0x1_0000 then [0xE0 + n / 4096, 0x80 + n / 64 % 64, 0x80 + n % 64]
    else [0xF0 + n / 262144, 0x80 + n / 4096 % 64, 0x80 + n / 64 % 64, 0x80 + n % 64]
  }

  /** The characters that stay as they are. */
  predicate Unreserved(c: char) {
    'A' <= c <= 'Z' || 'a' <= c <= 'z' || '0' <= c <= '9' || c in "-_.!~*'()"
  }

  function HexDigit(n: int): char
    requires 0 <= n < 16
  {
    if n < 10 then ('0' as int + n) as char else ('A' as int + n - 10) as char
  }

  function HexValue(c: char): Option<int> {
    if '0' <= c <= '9' then Some(c as int - '0' as int)
    else if 'A' <= c <= 'F' then Some(c as int - 'A' as int + 10)
    else if 'a' <= c <= 'f' then Some(c as int - 'a' as int + 10)
    else None
  }

  function Escape(b: Byte): string { ['%', HexDigit(b / 16), HexDigit(b % 16)] }

  function EscapeAll(bytes: seq<Byte>): string {
    if bytes == [] then "" else Escape(bytes[0]) + EscapeAll(bytes[1..])
  }

  function EncodeChar(c: char): string {
    if Unreserved(c) then [c] else EscapeAll(Utf8(c))
  }

  function Encode(s: string): string {
    if s == "" then "" else EncodeChar(s[0]) + Encode(s[1..])
  }

  /** Which characters stay, one by one. */
  lemma UnreservedCharacters(c: char)
    ensures Unreserved(c) <==> c in CAPITALS || c in SMALL || c in "0123456789" || c in "-_.!~*'()"
  {
    hide CAPITALS, SMALL;
    CapitalRange(c);
    SmallRange(c);
    DigitRange(c);
  }

  /** The escape of a byte: its two digits in base 16, capitals. */
  lemma EscapeIs(b: Byte)
    ensures Escape(b) == "%" + ["0123456789ABCDEF"[b / 16], "0123456789ABCDEF"[b % 16]]
  {
    HexDigitIs(b / 16);
    HexDigitIs(b % 16);
  }

  lemma HexDigitIs(n: nat)
    requires n < 16
    ensures HexDigit(n) == "0123456789ABCDEF"[n]
  {
  }

  /** The least and the greatest character of each length in UTF-8, and those next to the surrogates. */
  lemma Utf8Bounds()
    ensures Utf8('\0') == [0x00] && Utf8('\U{7F}') == [0x7F]
    ensures Utf8('\U{80}') == [0xC2, 0x80] && Utf8('\U{7FF}') == [0xDF, 0xBF]
    ensures Utf8('\U{800}') == [0xE0, 0xA0, 0x80] && Utf8('\U{FFFF}') == [0xEF, 0xBF, 0xBF]
    ensures Utf8('\U{D7FF}') == [0xED, 0x9F, 0xBF] && Utf8('\U{E000}') == [0xEE, 0x80, 0x80]
    ensures Utf8('\U{10000}') == [0xF0, 0x90, 0x80, 0x80] && Utf8('\U{10FFFF}') == [0xF4, 0x8F, 0xBF, 0xBF]
  {
  }

  // ---------------------------------------------------------------- decoding

  /** The byte of a %XX at the front. */
  function EscapedByte(s: string): Option<Byte> {
    if |s| >= 3 && s[0] == '%' && HexValue(s[1]).Some? && HexValue(s[2]).Some? then
      var b := HexValue(s[1]).value * 16 + HexValue(s[2]).value;
      if 0 <= b < 256 then Some(b) else None
    else None
  }

  /** How many bytes a sequence has, by its first byte; 0 for a byte that cannot start one. */
  function SequenceLength(b: Byte): nat {
    if b < 0x80 then 1 else if b < 0xC0 then 0 else if b < 0xE0 then 2 else if b < 0xF0 then 3 else if b < 0xF8 then 4 else 0
  }

  /** `count` continuation bytes at the front, six bits each, appended to `high`. */
  function Continued(s: string, count: nat, high: nat): Option<nat> {
    if count == 0 then Some(high)
    else
      var b := EscapedByte(s);
      if b.Some? && 0x80 <= b.value < 0xC0 then Continued(s[3..], count - 1, high * 64 + (b.value - 0x80)) else None
  }

  /** A code point in the shortest form of its length, and no surrogate. */
  predicate WellCoded(n: nat, length: nat) {
    match length
    case 1 => n < 0x80
    case 2 => 0x80 <= n < 0x800
    case 3 => 0x800 <= n < 0xD800 || 0xE000 <= n < 0x1_0000
    case 4 => 0x1_0000 <= n < 0x11_0000
    case _ => false
  }

  function LeadBits(b: Byte): nat {
    if b < 0x80 then b else if b < 0xE0 then b % 32 else if b < 0xF0 then b % 16 else b % 8
  }

  /** None is a URIError. */
  function DecodeChar(s: string): Option<(char, nat)>
    requires s != ""
    ensures DecodeChar(s).Some? ==> 0 < DecodeChar(s).value.1 <= |s|
  {
    if s[0] != '%' then Some((s[0], 1))
    else
      var lead := EscapedByte(s);
      if lead.None? then None
      else
        var length := SequenceLength(lead.value);
        if length == 0 then None
        else
          var n := Continued(s[3..], length - 1, LeadBits(lead.value));
          if n.Some? && WellCoded(n.value, length) && 3 * length <= |s| then Some((n.value as char, 3 * length)) else None
  }

  function Decode(s: string): Option<string>
    decreases |s|
  {
    if s == "" then Some("")
    else
      var first := DecodeChar(s);
      if first.None? then None
      else
        var rest := Decode(s[first.value.1..]);
        if rest.None? then None else Some([first.value.0] + rest.value)
  }

  // ---------------------------------------------------------------- round trip

  lemma EscapeReadBack(b: Byte, rest: string)
    ensures EscapedByte(Escape(b) + rest) == Some(b) && (Escape(b) + rest)[3..] == rest && (Escape(b) + rest)[0] == '%'
  {
    var s := Escape(b) + rest;
    assert s[1] == HexDigit(b / 16) && s[2] == HexDigit(b % 16);
    assert b / 16 * 16 + b % 16 == b;
  }

  lemma ContinuationReadBack(bytes: seq<Byte>, rest: string, high: nat)
    requires 1 <= |bytes| <= 3 && forall i :: 0 <= i < |bytes| ==> 0x80 <= bytes[i] < 0xC0
    ensures Continued(EscapeAll(bytes) + rest, |bytes|, high)
            == Continued(EscapeAll(bytes[1..]) + rest, |bytes| - 1, high * 64 + (bytes[0] - 0x80))
  {
    EscapeReadBack(bytes[0], EscapeAll(bytes[1..]) + rest);
    assert EscapeAll(bytes) + rest == Escape(bytes[0]) + (EscapeAll(bytes[1..]) + rest);
  }

  lemma EscapeAllLength(bytes: seq<Byte>)
    ensures |EscapeAll(bytes)| == 3 * |bytes|
  {
  }

  /** Six-bit groups put together again. */
  lemma Regrouped(n: nat)
    ensures n == n / 64 * 64 + n % 64
    ensures n / 64 == n / 4096 * 64 + n / 64 % 64
    ensures n / 4096 == n / 262144 * 64 + n / 4096 % 64
  {
    assert n / 64 / 64 == n / 4096;
    assert n / 4096 / 64 == n / 262144;
  }

  predicate IsContinuation(b: Byte) { 0x80 <= b < 0xC0 }

  lemma TwoReadBack(b1: Byte, rest: string, high: nat)
    requires IsContinuation(b1)
    ensures Continued(EscapeAll([b1]) + rest, 1, high) == Some(high * 64 + (b1 - 0x80))
  {
    ContinuationReadBack([b1], rest, high);
    assert |[b1][1..]| == 0;
  }

  lemma ThreeReadBack(b1: Byte, b2: Byte, rest: string, high: nat)
    requires IsContinuation(b1) && IsContinuation(b2)
    ensures Continued(EscapeAll([b1, b2]) + rest, 2, high) == Some((high * 64 + (b1 - 0x80)) * 64 + (b2 - 0x80))
  {
    ContinuationReadBack([b1, b2], rest, high);
    assert [b1, b2][1..] == [b2];
    TwoReadBack(b2, rest, high * 64 + (b1 - 0x80));
  }

  lemma FourReadBack(b1: Byte, b2: Byte, b3: Byte, rest: string, high: nat)
    requires IsContinuation(b1) && IsContinuation(b2) && IsContinuation(b3)
    ensures Continued(EscapeAll([b1, b2, b3]) + rest, 3, high)
            == Some(((high * 64 + (b1 - 0x80)) * 64 + (b2 - 0x80)) * 64 + (b3 - 0x80))
  {
    ContinuationReadBack([b1, b2, b3], rest, high);
    assert [b1, b2, b3][1..] == [b2, b3];
    ThreeReadBack(b2, b3, rest, high * 64 + (b1 - 0x80));
  }

  /** The first byte tells the length and holds the bits above the continuation bytes. */
  lemma Utf8Shape(c: char)
    ensures var (n, bytes) := (c as int, Utf8(c));
            && 1 <= |bytes| <= 4 && SequenceLength(bytes[0]) == |bytes| && WellCoded(n, |bytes|)
            && LeadBits(bytes[0]) == if |bytes| == 1 then n else if |bytes| == 2 then n / 64 else if |bytes| == 3 then n / 4096 else n / 262144
  {
  }

  lemma Utf8ReadBack(c: char, rest: string)
    ensures var bytes := Utf8(c);
            && SequenceLength(bytes[0]) == |bytes| && WellCoded(c as int, |bytes|)
            && Continued(EscapeAll(bytes[1..]) + rest, |bytes| - 1, LeadBits(bytes[0])) == Some(c as int)
  {
    hide EscapeAll, SequenceLength, LeadBits, WellCoded;
    var n, bytes := c as int, Utf8(c);
    Utf8Shape(c);
    Regrouped(n);
    if |bytes| == 1 {
      assert Continued(EscapeAll(bytes[1..]) + rest, 0, n) == Some(n);
    } else if |bytes| == 2 {
      assert bytes[1..] == [bytes[1]];
      TwoReadBack(bytes[1], rest, n / 64);
    } else if |bytes| == 3 {
      assert bytes[1..] == [bytes[1], bytes[2]];
      ThreeReadBack(bytes[1], bytes[2], rest, n / 4096);
    } else {
      assert bytes[1..] == [bytes[1], bytes[2], bytes[3]];
      FourReadBack(bytes[1], bytes[2], bytes[3], rest, n / 262144);
    }
  }

  lemma CharReadBack(c: char, rest: string)
    ensures var s := EncodeChar(c) + rest;
            && s != "" && DecodeChar(s) == Some((c, |EncodeChar(c)|)) && s[|EncodeChar(c)|..] == rest
  {
    hide Utf8, Continued, SequenceLength, LeadBits, WellCoded, HexValue, HexDigit;
    if !Unreserved(c) {
      var bytes := Utf8(c);
      Utf8Shape(c);
      Utf8ReadBack(c, rest);
      EscapeAllLength(bytes);
      EscapeReadBack(bytes[0], EscapeAll(bytes[1..]) + rest);
      assert EncodeChar(c) + rest == Escape(bytes[0]) + (EscapeAll(bytes[1..]) + rest);
    } else {
      assert c != '%';
    }
  }

  /** Percent-coding loses nothing, for every string. */
  lemma {:induction false} DecodeOfEncode(s: string)
    ensures Decode(Encode(s)) == Some(s)
  {
    hide EncodeChar, DecodeChar;
    if s != "" {
      CharReadBack(s[0], Encode(s[1..]));
      DecodeOfEncode(s[1..]);
      assert [s[0]] + s[1..] == s;
    }
  }

  /** Nothing in an encoded value can be taken for a separator or trimmed. */
  lemma {:induction false} EncodedIsPlain(s: string)
    ensures forall i :: 0 <= i < |Encode(s)| ==> Unreserved(Encode(s)[i]) || Encode(s)[i] == '%'
  {
    if s != "" {
      EncodedIsPlain(s[1..]);
      if !Unreserved(s[0]) {
        EscapedIsPlain(Utf8(s[0]));
      }
    }
  }

  lemma {:induction false} EscapedIsPlain(bytes: seq<Byte>)
    ensures forall i :: 0 <= i < |EscapeAll(bytes)| ==> Unreserved(EscapeAll(bytes)[i]) || EscapeAll(bytes)[i] == '%'
  {
    if bytes != [] {
      EscapedIsPlain(bytes[1..]);
    }
  }
}
