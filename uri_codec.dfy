/**
 * `encodeURIComponent`, and the decoding `URLSearchParams` applies to a
 * name or value of a query string: `+` is a space, `%XX` is a byte, and the
 * bytes are read as UTF-8.
 */
module UriCodec {
  import opened Wrappers

  type byte = x: int | 0 <= x < 256

  /** The UTF-8 encoding of one Unicode scalar value. */
  function Utf8Char(c: char): (bs: seq<byte>)
    ensures 1 <= |bs| <= 4
    ensures |bs| == 1 <==> c as int < 0x80
  {
    var n := c as int;
    if n < 0x80 then [n]
    else if n < 0x800 then [0xC0 + n / 64, 0x80 + n % 64]
    else if n < 0x10000 then [0xE0 + n / 4096, 0x80 + (n / 64) % 64, 0x80 + n % 64]
    else [0xF0 + n / 262144, 0x80 + (n / 4096) % 64, 0x80 + (n / 64) % 64, 0x80 + n % 64]
  }

  function Utf8(s: string): seq<byte> {
    if s == [] then [] else Utf8Char(s[0]) + Utf8(s[1..])
  }

  predicate IsContinuation(b: byte) {
    0x80 <= b < 0xC0
  }

  /**
   * The scalar value at the head of `bs` and the number of bytes it takes;
   * None when the head is not well-formed UTF-8 (a stray continuation byte,
   * an overlong form, a surrogate, a value beyond U+10FFFF, a truncated sequence).
   */
  function DecodeFirst(bs: seq<byte>): (r: Option<(char, nat)>)
    requires |bs| > 0
    ensures r.Some? ==> 1 <= r.value.1 <= |bs|
  {
    var b0: int := bs[0];
    if b0 < 0x80 then Some((b0 as char, 1))
    else if 0xC2 <= b0 < 0xE0 && |bs| >= 2 && IsContinuation(bs[1]) then
      Some((Scalar2(b0, bs[1]) as char, 2))
    else if 0xE0 <= b0 < 0xF0 && |bs| >= 3 && IsContinuation(bs[1]) && IsContinuation(bs[2]) then
      var n := Scalar3(b0, bs[1], bs[2]);
      if 0x800 <= n && !(0xD800 <= n < 0xE000) then Some((n as char, 3)) else None
    else if 0xF0 <= b0 < 0xF5 && |bs| >= 4 && IsContinuation(bs[1]) && IsContinuation(bs[2]) && IsContinuation(bs[3]) then
      var n := Scalar4(b0, bs[1], bs[2], bs[3]);
      if 0x10000 <= n <= 0x10FFFF then Some((n as char, 4)) else None
    else None
  }

  /** The value carried by a two-, three- or four-byte sequence. */
  function Scalar2(b0: int, b1: int): (n: int)
    requires 0xC2 <= b0 < 0xE0 && 0x80 <= b1 < 0xC0
    ensures 0x80 <= n < 0x800
  {
    (b0 - 0xC0) * 64 + (b1 - 0x80)
  }

  function Scalar3(b0: int, b1: int, b2: int): (n: int)
    requires 0xE0 <= b0 < 0xF0 && 0x80 <= b1 < 0xC0 && 0x80 <= b2 < 0xC0
    ensures 0 <= n < 0x10000
  {
    (b0 - 0xE0) * 4096 + (b1 - 0x80) * 64 + (b2 - 0x80)
  }

  function Scalar4(b0: int, b1: int, b2: int, b3: int): (n: int)
    requires 0xF0 <= b0 < 0xF5 && 0x80 <= b1 < 0xC0 && 0x80 <= b2 < 0xC0 && 0x80 <= b3 < 0xC0
    ensures 0 <= n < 0x140000
  {
    (b0 - 0xF0) * 262144 + (b1 - 0x80) * 4096 + (b2 - 0x80) * 64 + (b3 - 0x80)
  }

  /** Strict UTF-8 decoding. */
  function Utf8Decode(bs: seq<byte>): (r: Option<string>)
    ensures r.Some? ==> (r.value == [] <==> bs == [])
    decreases |bs|
  {
    if bs == [] then Some([])
    else
      match DecodeFirst(bs)
      case None => None
      case Some((c, n)) =>
        match Utf8Decode(bs[n..])
        case None => None
        case Some(rest) => Some([c] + rest)
  }

  /** The first scalar value of an encoding decodes back from its bytes. */
  lemma DecodeFirstChar(c: char, rest: seq<byte>)
    ensures DecodeFirst(Utf8Char(c) + rest) == Some((c, |Utf8Char(c)|))
  {
    var n := c as int;
    var bs := Utf8Char(c) + rest;
    if n < 0x80 {
    } else if n < 0x800 {
      TwoBytes(n);
      assert bs[0] == 0xC0 + n / 64 && bs[1] == 0x80 + n % 64;
    } else if n < 0x10000 {
      ThreeBytes(n);
      assert bs[0] == 0xE0 + n / 4096 && bs[1] == 0x80 + (n / 64) % 64 && bs[2] == 0x80 + n % 64;
    } else {
      FourBytes(n);
      assert bs[0] == 0xF0 + n / 262144 && bs[1] == 0x80 + (n / 4096) % 64;
      assert bs[2] == 0x80 + (n / 64) % 64 && bs[3] == 0x80 + n % 64;
    }
  }

  lemma TwoBytes(n: int)
    requires 0x80 <= n < 0x800
    ensures 0xC2 <= 0xC0 + n / 64 < 0xE0
    ensures Scalar2(0xC0 + n / 64, 0x80 + n % 64) == n
  {
  }

  lemma ThreeBytes(n: int)
    requires 0x800 <= n < 0x10000
    ensures 0xE0 <= 0xE0 + n / 4096 < 0xF0
    ensures Scalar3(0xE0 + n / 4096, 0x80 + (n / 64) % 64, 0x80 + n % 64) == n
  {
    assert (n / 4096) * 64 + (n / 64) % 64 == n / 64;
  }

  lemma FourBytes(n: int)
    requires 0x10000 <= n <= 0x10FFFF
    ensures 0xF0 <= 0xF0 + n / 262144 < 0xF5
    ensures Scalar4(0xF0 + n / 262144, 0x80 + (n / 4096) % 64, 0x80 + (n / 64) % 64, 0x80 + n % 64) == n
  {
    assert (n / 262144) * 64 + (n / 4096) % 64 == n / 4096;
    assert (n / 4096) * 64 + (n / 64) % 64 == n / 64;
  }

  /** Decoding the UTF-8 encoding of a string gives the string back. */
  lemma {:induction false} Utf8RoundTrip(s: string)
    ensures Utf8Decode(Utf8(s)) == Some(s)
  {
    if s != [] {
      var head := Utf8Char(s[0]);
      var tail := Utf8(s[1..]);
      DecodeFirstChar(s[0], tail);
      assert (head + tail)[|head|..] == tail;
      Utf8RoundTrip(s[1..]);
      assert [s[0]] + s[1..] == s;
    }
  }

  lemma {:induction false} Utf8Concat(a: string, b: string)
    ensures Utf8(a + b) == Utf8(a) + Utf8(b)
  {
    if a == [] {
      assert a + b == b;
    } else {
      assert (a + b)[0] == a[0];
      assert (a + b)[1..] == a[1..] + b;
      Utf8Concat(a[1..], b);
    }
  }

  /** The characters `encodeURIComponent` leaves as they are. */
  predicate Unreserved(c: char) {
    ('A' <= c <= 'Z') || ('a' <= c <= 'z') || ('0' <= c <= '9') ||
    c == '-' || c == '_' || c == '.' || c == '!' || c == '~' || c == '*' || c == '\'' || c == '(' || c == ')'
  }

  /** Everything an encoded component is made of. */
  predicate UriSafe(t: string) {
    forall i :: 0 <= i < |t| ==> Unreserved(t[i]) || t[i] == '%'
  }

  function HexDigit(d: nat): (c: char)
    requires d < 16
    ensures Unreserved(c)
  {
    if d < 10 then ('0' as int + d) as char else ('A' as int + d - 10) as char
  }

  /** `encodeURIComponent` writes its hex digits in upper case. */
  lemma HexDigitUppercase(d: nat)
    requires d < 16
    ensures '0' <= HexDigit(d) <= '9' || 'A' <= HexDigit(d) <= 'F'
    ensures HexDigit(d) as int - (if d < 10 then '0' as int else 'A' as int - 10) == d
  {
  }

  predicate IsHex(c: char) {
    ('0' <= c <= '9') || ('A' <= c <= 'F') || ('a' <= c <= 'f')
  }

  function HexValue(c: char): (d: nat)
    requires IsHex(c)
    ensures d < 16
  {
    if '0' <= c <= '9' then c as int - '0' as int
    else if 'A' <= c <= 'F' then c as int - 'A' as int + 10
    else c as int - 'a' as int + 10
  }

  /** `%XX` with upper-case hex digits. */
  function PercentByte(b: byte): string {
    ['%', HexDigit(b / 16), HexDigit(b % 16)]
  }

  function PercentBytes(bs: seq<byte>): (t: string)
    ensures UriSafe(t) && |t| == 3 * |bs|
  {
    if bs == [] then [] else PercentByte(bs[0]) + PercentBytes(bs[1..])
  }

  /** What one character becomes in `encodeURIComponent`. */
  function EncodeChar(c: char): (t: string)
    ensures UriSafe(t) && t != []
  {
    if Unreserved(c) then [c] else PercentBytes(Utf8Char(c))
  }

  /**
   * `encodeURIComponent(s)`. A string of scalar values never holds a lone
   * surrogate, so the URIError case of JavaScript cannot arise.
   */
  function EncodeUriComponent(s: string): (t: string)
    ensures UriSafe(t)
    ensures t == [] <==> s == []
  {
    if s == [] then [] else EncodeChar(s[0]) + EncodeUriComponent(s[1..])
  }

  /**
   * The bytes of a query-string name or value: `+` stands for a space, `%XX`
   * for the byte XX (either case), and every other character for its UTF-8 bytes.
   */
  function PercentDecode(t: string): (bs: seq<byte>)
    ensures bs == [] <==> t == []
  {
    if |t| == 0 then []
    else if t[0] == '%' && |t| >= 3 && IsHex(t[1]) && IsHex(t[2]) then
      [HexValue(t[1]) * 16 + HexValue(t[2])] + PercentDecode(t[3..])
    else Utf8Char(if t[0] == '+' then ' ' else t[0]) + PercentDecode(t[1..])
  }

  /** A name or value of `URLSearchParams`, when its bytes are well-formed UTF-8. */
  function DecodeComponent(t: string): (r: Option<string>)
    ensures r.Some? ==> (r.value == [] <==> t == [])
  {
    Utf8Decode(PercentDecode(t))
  }

  lemma HexDigitRoundTrip(d: nat)
    requires d < 16
    ensures IsHex(HexDigit(d)) && HexValue(HexDigit(d)) == d
  {
  }

  /** A `%XX` escape decodes to its byte. */
  lemma PercentByteDecode(b: byte, rest: string)
    ensures PercentDecode(PercentByte(b) + rest) == [b] + PercentDecode(rest)
  {
    var t := PercentByte(b) + rest;
    HexDigitRoundTrip(b / 16);
    HexDigitRoundTrip(b % 16);
    assert t[0] == '%' && t[1] == HexDigit(b / 16) && t[2] == HexDigit(b % 16);
    assert t[3..] == rest;
  }

  /** Percent-encoded bytes decode back to those bytes, whatever text follows. */
  lemma {:induction false} PercentBytesDecode(bs: seq<byte>, rest: string)
    ensures PercentDecode(PercentBytes(bs) + rest) == bs + PercentDecode(rest)
  {
    if bs == [] {
      assert PercentBytes(bs) + rest == rest;
    } else {
      PercentBytesDecode(bs[1..], rest);
      PercentBytesStep(bs, rest, PercentDecode(rest));
    }
  }

  /** One step of PercentBytesDecode: decoding the first escape in front of the others. */
  lemma PercentBytesStep(bs: seq<byte>, rest: string, decodedRest: seq<byte>)
    requires bs != []
    requires PercentDecode(PercentBytes(bs[1..]) + rest) == bs[1..] + decodedRest
    ensures PercentDecode(PercentBytes(bs) + rest) == bs + decodedRest
  {
    var b := bs[0];
    var tail := PercentBytes(bs[1..]) + rest;
    PercentBytesCons(bs, rest);
    PercentByteDecode(b, tail);
    ConsAppend(b, bs[1..], decodedRest);
    calc {
      PercentDecode(PercentBytes(bs) + rest);
      PercentDecode(PercentByte(b) + tail);
      [b] + PercentDecode(tail);
      [b] + (bs[1..] + decodedRest);
      ([b] + bs[1..]) + decodedRest;
      { assert [b] + bs[1..] == bs; }
      bs + decodedRest;
    }
  }

  lemma PercentBytesCons(bs: seq<byte>, rest: string)
    requires bs != []
    ensures PercentBytes(bs) + rest == PercentByte(bs[0]) + (PercentBytes(bs[1..]) + rest)
  {
  }

  lemma ConsAppend<T>(x: T, xs: seq<T>, ys: seq<T>)
    ensures [x] + (xs + ys) == ([x] + xs) + ys
  {
  }

  lemma {:induction false} PercentDecodeEncoded(s: string)
    ensures PercentDecode(EncodeUriComponent(s)) == Utf8(s)
  {
    if s != [] {
      var c := s[0];
      var rest := EncodeUriComponent(s[1..]);
      PercentDecodeEncoded(s[1..]);
      if Unreserved(c) {
        assert ([c] + rest)[1..] == rest;
      } else {
        PercentBytesDecode(Utf8Char(c), rest);
      }
    }
  }

  /** Decoding an encoded component gives the original text back. */
  lemma ComponentRoundTrip(s: string)
    ensures DecodeComponent(EncodeUriComponent(s)) == Some(s)
  {
    PercentDecodeEncoded(s);
    Utf8RoundTrip(s);
  }

  /** A name written without `%` or `+` decodes to itself. */
  lemma {:induction false} PlainComponent(t: string)
    requires forall i :: 0 <= i < |t| ==> t[i] != '%' && t[i] != '+'
    ensures PercentDecode(t) == Utf8(t)
    ensures DecodeComponent(t) == Some(t)
  {
    if t != [] {
      PlainComponent(t[1..]);
    }
    Utf8RoundTrip(t);
  }
}
