/**
 * JavaScript's `encodeURIComponent` and `decodeURIComponent`: percent-encoding of the UTF-8 bytes of a
 * string. Characters are Unicode scalar values; a byte is a `nat` below 256.
 */
module Uri {
  import opened Wrappers

  /** The characters `encodeURIComponent` leaves as they are. */
  predicate IsUnreserved(c: char) {
    ('A' <= c <= 'Z') || ('a' <= c <= 'z') || ('0' <= c <= '9')
    || c == '-' || c == '_' || c == '.' || c == '!' || c == '~' || c == '*' || c == '\'' || c == '(' || c == ')'
  }

  function HexDigit(d: nat): (c: char)
    requires d < 16
  {
    if d < 10 then ('0' as int + d) as char else ('A' as int + d - 10) as char
  }

  function HexValue(c: char): (r: Option<nat>)
    ensures r.Some? ==> r.value < 16
  {
    if '0' <= c <= '9' then Some(c as int - '0' as int)
    else if 'A' <= c <= 'F' then Some(c as int - 'A' as int + 10)
    else if 'a' <= c <= 'f' then Some(c as int - 'a' as int + 10)
    else None
  }

  predicate IsByte(b: nat) {
    b < 256
  }

  /** The UTF-8 encoding of a scalar value: one to four bytes. */
  function Utf8(c: char): (bytes: seq<nat>)
    ensures 1 <= |bytes| <= 4
    ensures forall b :: b in bytes ==> IsByte(b)
  {
    var cp := c as int;
    if cp < 0x80 then [cp]
    else if cp < 0x800 then [0xC0 + cp / 64, 0x80 + cp % 64]
    else if cp < 0x10000 then [0xE0 + cp / 4096, 0x80 + cp / 64 % 64, 0x80 + cp % 64]
    else [0xF0 + cp / 262144, 0x80 + cp / 4096 % 64, 0x80 + cp / 64 % 64, 0x80 + cp % 64]
  }

  /** `%XY` with upper-case hex digits. */
  function EncodeByte(b: nat): (r: string)
    requires IsByte(b)
    ensures |r| == 3 && r[0] == '%'
  {
    ['%', HexDigit(b / 16), HexDigit(b % 16)]
  }

  function EncodeBytes(bytes: seq<nat>): (r: string)
    requires forall b :: b in bytes ==> IsByte(b)
    ensures |r| == 3 * |bytes|
  {
    if bytes == [] then [] else EncodeByte(bytes[0]) + EncodeBytes(bytes[1..])
  }

  function EncodeChar(c: char): (r: string)
    ensures |r| >= 1
  {
    if IsUnreserved(c) then [c] else EncodeBytes(Utf8(c))
  }

  /** `encodeURIComponent(s)`: unreserved characters kept, every other one replaced by its escaped UTF-8 bytes. */
  function EncodeURIComponent(s: string): (r: string)
    ensures |r| >= |s|
  {
    if s == [] then [] else EncodeChar(s[0]) + EncodeURIComponent(s[1..])
  }

  /** Reads `n` consecutive `%XY` escapes from the start of `s`. */
  function ReadEscapes(s: string, n: nat): (r: Option<seq<nat>>)
    ensures r.Some? ==> |r.value| == n && 3 * n <= |s| && forall b :: b in r.value ==> IsByte(b)
  {
    if n == 0 then Some([])
    else if |s| >= 3 && s[0] == '%' && HexValue(s[1]).Some? && HexValue(s[2]).Some? then
      match ReadEscapes(s[3..], n - 1)
      case None => None
      case Some(rest) => Some([HexValue(s[1]).value * 16 + HexValue(s[2]).value] + rest)
    else None
  }

  /** The length of the UTF-8 sequence a lead byte announces; 0 for a byte that cannot lead one. */
  function SequenceLength(lead: nat): (n: nat)
    ensures n <= 4
  {
    if lead < 0x80 then 1
    else if 0xC0 <= lead < 0xE0 then 2
    else if 0xE0 <= lead < 0xF0 then 3
    else if 0xF0 <= lead < 0xF8 then 4
    else 0
  }

  predicate IsContinuation(b: nat) {
    0x80 <= b < 0xC0
  }

  predicate IsScalar(cp: int) {
    0 <= cp < 0xD800 || 0xE000 <= cp < 0x110000
  }

  /** Decodes one UTF-8 sequence; overlong forms, surrogates and values past U+10FFFF are rejected. */
  function Utf8Decode(bytes: seq<nat>): (r: Option<char>)
    requires 1 <= |bytes| <= 4
  {
    var n := |bytes|;
    var lead := bytes[0];
    if SequenceLength(lead) != n then None
    else if exists k :: 1 <= k < n && !IsContinuation(bytes[k]) then None
    else
      var cp :=
        if n == 1 then lead
        else if n == 2 then (lead - 0xC0) * 64 + (bytes[1] - 0x80)
        else if n == 3 then (lead - 0xE0) * 4096 + (bytes[1] - 0x80) * 64 + (bytes[2] - 0x80)
        else (lead - 0xF0) * 262144 + (bytes[1] - 0x80) * 4096 + (bytes[2] - 0x80) * 64 + (bytes[3] - 0x80);
      var least := if n == 1 then 0 else if n == 2 then 0x80 else if n == 3 then 0x800 else 0x10000;
      if least <= cp && IsScalar(cp) then Some(cp as char) else None
  }

  /**
   * `decodeURIComponent(s)`: every escape sequence is replaced by the character its UTF-8 bytes encode;
   * `None` is the URIError it throws for a malformed or truncated escape or an invalid UTF-8 sequence.
   */
  function DecodeURIComponent(s: string): (r: Option<string>)
    ensures '%' !in s ==> r == Some(s)
    decreases |s|
  {
    if s == [] then Some([])
    else if s[0] != '%' then
      assert s == [s[0]] + s[1..];
      match DecodeURIComponent(s[1..])
      case None => None
      case Some(rest) => Some([s[0]] + rest)
    else
      match ReadEscapes(s, 1)
      case None => None
      case Some(first) =>
        var n := SequenceLength(first[0]);
        if n == 0 then None
        else match ReadEscapes(s, n)
          case None => None
          case Some(bytes) =>
            match Utf8Decode(bytes)
            case None => None
            case Some(c) =>
              match DecodeURIComponent(s[3 * n..])
              case None => None
              case Some(rest) => Some([c] + rest)
  }

  lemma HexRoundTrip(d: nat)
    requires d < 16
    ensures HexValue(HexDigit(d)) == Some(d)
  {
  }

  lemma {:induction false} ReadEncodedEscapes(bytes: seq<nat>, rest: string, n: nat)
    requires forall b :: b in bytes ==> IsByte(b)
    requires n <= |bytes|
    ensures ReadEscapes(EncodeBytes(bytes) + rest, n) == Some(bytes[..n])
  {
    if n > 0 {
      var s := EncodeBytes(bytes) + rest;
      var b := bytes[0];
      assert IsByte(b) by { assert b in bytes; }
      HexRoundTrip(b / 16);
      HexRoundTrip(b % 16);
      assert s == EncodeByte(b) + (EncodeBytes(bytes[1..]) + rest);
      assert s[3..] == EncodeBytes(bytes[1..]) + rest;
      ReadEncodedEscapes(bytes[1..], rest, n - 1);
      assert [b] + bytes[1..][..n - 1] == bytes[..n];
    }
  }

  lemma Utf8TwoBytes(cp: int)
    requires 0x80 <= cp < 0x800
    ensures (cp / 64) * 64 + cp % 64 == cp
    ensures 0xC0 <= 0xC0 + cp / 64 < 0xE0
  {
  }

  lemma Utf8ThreeBytes(cp: int)
    requires 0x800 <= cp < 0x10000
    ensures (cp / 4096) * 4096 + (cp / 64 % 64) * 64 + cp % 64 == cp
    ensures 0xE0 <= 0xE0 + cp / 4096 < 0xF0
  {
    var hi := cp / 64;
    assert hi / 64 == cp / 4096;
    assert hi == (hi / 64) * 64 + hi % 64;
  }

  lemma Utf8FourBytes(cp: int)
    requires 0x10000 <= cp < 0x110000
    ensures (cp / 262144) * 262144 + (cp / 4096 % 64) * 4096 + (cp / 64 % 64) * 64 + cp % 64 == cp
    ensures 0xF0 <= 0xF0 + cp / 262144 < 0xF8
  {
    var hi := cp / 64;
    var top := hi / 64;
    assert top == cp / 4096;
    assert top / 64 == cp / 262144;
    assert hi == top * 64 + hi % 64;
    assert top == (top / 64) * 64 + top % 64;
  }

  /** Decoding the UTF-8 bytes of a character gives the character back. */
  lemma Utf8RoundTrip(c: char)
    ensures SequenceLength(Utf8(c)[0]) == |Utf8(c)|
    ensures Utf8Decode(Utf8(c)) == Some(c)
  {
    var cp := c as int;
    if cp < 0x80 {
    } else if cp < 0x800 {
      Utf8RoundTripTwo(c);
    } else if cp < 0x10000 {
      Utf8RoundTripThree(c);
    } else {
      Utf8RoundTripFour(c);
    }
  }

  lemma Utf8RoundTripTwo(c: char)
    requires 0x80 <= c as int < 0x800
    ensures SequenceLength(Utf8(c)[0]) == |Utf8(c)| == 2
    ensures Utf8Decode(Utf8(c)) == Some(c)
  {
    Utf8TwoBytes(c as int);
  }

  lemma Utf8RoundTripThree(c: char)
    requires 0x800 <= c as int < 0x10000
    ensures SequenceLength(Utf8(c)[0]) == |Utf8(c)| == 3
    ensures Utf8Decode(Utf8(c)) == Some(c)
  {
    Utf8ThreeBytes(c as int);
  }

  lemma Utf8RoundTripFour(c: char)
    requires 0x10000 <= c as int
    ensures SequenceLength(Utf8(c)[0]) == |Utf8(c)| == 4
    ensures Utf8Decode(Utf8(c)) == Some(c)
  {
    Utf8FourBytes(c as int);
  }

  lemma DecodeEncodedChar(c: char, rest: string)
    ensures DecodeURIComponent(EncodeChar(c) + rest) ==
      match DecodeURIComponent(rest) case None => None case Some(r) => Some([c] + r)
  {
    var s := EncodeChar(c) + rest;
    if IsUnreserved(c) {
      assert s[1..] == rest;
    } else {
      var bytes := Utf8(c);
      Utf8RoundTrip(c);
      ReadEncodedEscapes(bytes, rest, 1);
      ReadEncodedEscapes(bytes, rest, |bytes|);
      assert bytes[..|bytes|] == bytes;
      assert s[3 * |bytes|..] == rest;
    }
  }

  /** `decodeURIComponent(encodeURIComponent(s)) == s` for every string. */
  lemma {:induction false} DecodeEncode(s: string)
    ensures DecodeURIComponent(EncodeURIComponent(s)) == Some(s)
  {
    if s != [] {
      var rest := EncodeURIComponent(s[1..]);
      assert EncodeURIComponent(s) == EncodeChar(s[0]) + rest;
      DecodeEncode(s[1..]);
      DecodeEncodedChar(s[0], rest);
      HeadTail(s);
    }
  }

  lemma HeadTail(s: string)
    requires s != []
    ensures [s[0]] + s[1..] == s
  {
  }

  /** Text without escapes decodes to itself. */
  lemma {:induction false} DecodePlain(s: string)
    requires '%' !in s
    ensures DecodeURIComponent(s) == Some(s)
  {
    if s != [] {
      DecodePlain(s[1..]);
      assert [s[0]] + s[1..] == s;
    }
  }
}
