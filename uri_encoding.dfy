/** `encodeURIComponent` (section 18.2.6.5 of ECMA-262, 6th edition): every character
    outside the unreserved set is written as the UTF-8 octets of its code point, each as
    `%` and two upper-case hexadecimal digits, the percent-encoding of section 2.1 of
    RFC 3986. `decodeURIComponent` (section 18.2.6.3) is given as its inverse, so that what
    a proxy receives can be shown to determine the original URL. */
module UriEncoding {
  import opened Js

  type Octet = b: int | 0 <= b < 256

  /** The characters `encodeURIComponent` leaves as they are: ASCII letters, digits and
      `- _ . ! ~ * ' ( )`. */
  predicate Unreserved(c: char)
  {
    ('A' <= c <= 'Z') || ('a' <= c <= 'z') || ('0' <= c <= '9') ||
    c == '-' || c == '_' || c == '.' || c == '!' || c == '~' || c == '*' ||
    c == '\'' || c == '(' || c == ')'
  }

  /** The upper-case hexadecimal digit for `n`. */
  function HexDigit(n: int): (c: char)
    requires 0 <= n < 16
  {
    if n < 10 then ('0' as int + n) as char else ('A' as int + n - 10) as char
  }

  /** The value of a hexadecimal digit of either case. */
  function HexValue(c: char): (r: Option<int>)
    ensures r.Some? ==> 0 <= r.value < 16
  {
    if '0' <= c <= '9' then Some(c as int - '0' as int)
    else if 'A' <= c <= 'F' then Some(c as int - 'A' as int + 10)
    else if 'a' <= c <= 'f' then Some(c as int - 'a' as int + 10)
    else None
  }

  lemma HexRoundTrip(n: int)
    requires 0 <= n < 16
    ensures HexValue(HexDigit(n)) == Some(n)
  {
  }

  /** The UTF-8 octets of a code point (section 3 of RFC 3629). */
  function Utf8(c: char): (bs: seq<Octet>)
    ensures 1 <= |bs| <= 4
  {
    var cp := c as int;
    if cp < 0x80 then [cp]
    else if cp < 0x800 then [0xC0 + cp / 64, 0x80 + cp % 64]
    else if cp < 0x1_0000 then [0xE0 + cp / 4096, 0x80 + (cp / 64) % 64, 0x80 + cp % 64]
    else [0xF0 + cp / 0x4_0000, 0x80 + (cp / 4096) % 64, 0x80 + (cp / 64) % 64, 0x80 + cp % 64]
  }

  /** `%XY` for one octet. */
  function Escape(b: Octet): (s: string)
  {
    ['%', HexDigit(b / 16), HexDigit(b % 16)]
  }

  function EscapeAll(bs: seq<Octet>): (s: string)
    ensures |s| == 3 * |bs|
  {
    if bs == [] then [] else Escape(bs[0]) + EscapeAll(bs[1..])
  }

  function EncodeChar(c: char): (s: string)
  {
    if Unreserved(c) then [c] else EscapeAll(Utf8(c))
  }

  /** A character that can appear in the output of `encodeURIComponent`. */
  predicate EncodedChar(c: char)
  {
    Unreserved(c) || c == '%'
  }

  /** `encodeURIComponent(s)`; its output holds only unreserved characters and `%`, so
      none of the delimiters `/ ? # & = :` of RFC 3986 survive in it. */
  function EncodeURIComponent(s: string): (r: string)
    ensures forall i :: 0 <= i < |r| ==> EncodedChar(r[i])
    ensures |s| <= |r|
  {
    if s == [] then []
    else
      EncodedCharsOfChar(s[0]);
      EncodeChar(s[0]) + EncodeURIComponent(s[1..])
  }

  lemma EncodedCharsOfEscapes(bs: seq<Octet>)
    ensures forall i :: 0 <= i < |EscapeAll(bs)| ==> EncodedChar(EscapeAll(bs)[i])
  {
    if bs != [] {
      EncodedCharsOfEscapes(bs[1..]);
      assert EscapeAll(bs) == Escape(bs[0]) + EscapeAll(bs[1..]);
    }
  }

  lemma EncodedCharsOfChar(c: char)
    ensures forall i :: 0 <= i < |EncodeChar(c)| ==> EncodedChar(EncodeChar(c)[i])
    ensures 1 <= |EncodeChar(c)|
  {
    if !Unreserved(c) {
      EncodedCharsOfEscapes(Utf8(c));
    }
  }

  // ---- decoding ----

  /** The octet written as `%XY` at position `i` of `s`, if there is one. */
  function OctetAt(s: string, i: nat): (r: Option<Octet>)
  {
    if i + 3 <= |s| && s[i] == '%' && HexValue(s[i + 1]).Some? && HexValue(s[i + 2]).Some? then
      Some(16 * HexValue(s[i + 1]).value + HexValue(s[i + 2]).value)
    else None
  }

  /** `k` consecutive escaped octets starting at position `i` of `s`. */
  function OctetsAt(s: string, i: nat, k: nat): (r: Option<seq<Octet>>)
    ensures r.Some? ==> |r.value| == k && (k > 0 ==> i + 3 * k <= |s|)
    decreases k
  {
    if k == 0 then Some([])
    else match OctetAt(s, i)
      case None => None
      case Some(b) =>
        match OctetsAt(s, i + 3, k - 1)
        case None => None
        case Some(rest) => Some([b] + rest)
  }

  /** The length of a UTF-8 sequence that starts with `b`, or 0 when `b` cannot start one
      (a continuation octet, or five or more leading one bits). */
  function SequenceLength(b: Octet): (n: nat)
    ensures n <= 4
  {
    if b < 0x80 then 1
    else if b < 0xC0 then 0
    else if b < 0xE0 then 2
    else if b < 0xF0 then 3
    else if b < 0xF8 then 4
    else 0
  }

  predicate Continuation(b: Octet)
  {
    0x80 <= b < 0xC0
  }

  /** The code point that the octets encode in UTF-8, rejecting overlong forms,
      surrogates and values beyond U+10FFFF. */
  function Utf8Decode(bs: seq<Octet>): (r: Option<char>)
  {
    if |bs| == 1 && bs[0] < 0x80 then Some(bs[0] as char)
    else if |bs| == 2 && 0xC0 <= bs[0] < 0xE0 && Continuation(bs[1]) then
      var cp: int := (bs[0] as int - 0xC0) * 64 + (bs[1] as int - 0x80);
      if cp < 0x80 then None else Some(cp as char)
    else if |bs| == 3 && 0xE0 <= bs[0] < 0xF0 && Continuation(bs[1]) && Continuation(bs[2]) then
      var cp: int := (bs[0] as int - 0xE0) * 4096 + (bs[1] as int - 0x80) * 64 + (bs[2] as int - 0x80);
      if cp < 0x800 || (0xD800 <= cp < 0xE000) then None else Some(cp as char)
    else if |bs| == 4 && 0xF0 <= bs[0] < 0xF8 && Continuation(bs[1]) && Continuation(bs[2])
      && Continuation(bs[3]) then
      var cp: int := (bs[0] as int - 0xF0) * 0x4_0000 + (bs[1] as int - 0x80) * 4096
        + (bs[2] as int - 0x80) * 64 + (bs[3] as int - 0x80);
      if cp < 0x1_0000 || 0x11_0000 <= cp then None else Some(cp as char)
    else None
  }

  /** The character an escape sequence at the start of `s` stands for, with the number
      of characters the sequence takes. */
  function DecodeEscape(s: string): (r: Option<(char, nat)>)
    ensures r.Some? ==> 3 <= r.value.1 <= |s|
  {
    match OctetAt(s, 0)
    case None => None
    case Some(b0) =>
      var n := SequenceLength(b0);
      if n == 0 then None
      else match OctetsAt(s, 0, n)
        case None => None
        case Some(bs) =>
          match Utf8Decode(bs)
          case None => None
          case Some(c) => Some((c, 3 * n))
  }

  /** `decodeURIComponent(s)`; `None` stands for the URIError it throws. */
  function DecodeURIComponent(s: string): (r: Option<string>)
    decreases |s|
  {
    if s == [] then Some([])
    else if s[0] != '%' then
      match DecodeURIComponent(s[1..])
      case None => None
      case Some(t) => Some([s[0]] + t)
    else
      match DecodeEscape(s)
      case None => None
      case Some((c, n)) =>
        match DecodeURIComponent(s[n..])
        case None => None
        case Some(t) => Some([c] + t)
  }

  lemma OctetAtEscapes(bs: seq<Octet>, rest: string, j: nat)
    requires j < |bs|
    ensures OctetAt(EscapeAll(bs) + rest, 3 * j) == Some(bs[j])
    decreases j
  {
    var s := EscapeAll(bs) + rest;
    assert s == Escape(bs[0]) + (EscapeAll(bs[1..]) + rest);
    if j == 0 {
      HexRoundTrip(bs[0] / 16);
      HexRoundTrip(bs[0] % 16);
    } else {
      OctetAtEscapes(bs[1..], rest, j - 1);
      var t := EscapeAll(bs[1..]) + rest;
      assert s[3 * j .. 3 * j + 3] == t[3 * (j - 1) .. 3 * (j - 1) + 3];
    }
  }

  lemma {:induction false} OctetsAtEscapes(bs: seq<Octet>, rest: string, i: nat)
    requires i <= |bs|
    ensures OctetsAt(EscapeAll(bs) + rest, 3 * i, |bs| - i) == Some(bs[i..])
    decreases |bs| - i
  {
    var s := EscapeAll(bs) + rest;
    if i < |bs| {
      OctetAtEscapes(bs, rest, i);
      OctetsAtEscapes(bs, rest, i + 1);
      assert 3 * i + 3 == 3 * (i + 1);
      assert OctetsAt(s, 3 * i, |bs| - i) == Some([bs[i]] + bs[i + 1..]);
      assert bs[i..] == [bs[i]] + bs[i + 1..];
    } else {
      assert bs[i..] == [];
    }
  }

  /** A code point split into six-bit digits (radix 64) is the sum of its digits. */
  lemma SixBitDigits(cp: int)
    requires 0 <= cp
    ensures cp == (cp / 64) * 64 + cp % 64
    ensures cp / 64 == ((cp / 64) / 64) * 64 + (cp / 64) % 64
    ensures cp / 4096 == (cp / 64) / 64
    ensures cp / 0x4_0000 == (cp / 4096) / 64
    ensures cp / 4096 == ((cp / 4096) / 64) * 64 + (cp / 4096) % 64
  {
  }

  lemma Utf8RoundTrip(c: char)
    ensures SequenceLength(Utf8(c)[0]) == |Utf8(c)|
    ensures Utf8Decode(Utf8(c)) == Some(c)
  {
    var cp := c as int;
    SixBitDigits(cp);
    var bs := Utf8(c);
    if cp >= 0x1_0000 {
      var d0, d1, d2, d3 := cp / 0x4_0000, (cp / 4096) % 64, (cp / 64) % 64, cp % 64;
      assert cp == ((d0 * 64 + d1) * 64 + d2) * 64 + d3;
      assert bs == [0xF0 + d0, 0x80 + d1, 0x80 + d2, 0x80 + d3];
      assert d0 < 8;
    } else if cp >= 0x800 {
      var d0, d1, d2 := cp / 4096, (cp / 64) % 64, cp % 64;
      assert cp == (d0 * 64 + d1) * 64 + d2;
      assert bs == [0xE0 + d0, 0x80 + d1, 0x80 + d2];
    } else if cp >= 0x80 {
      assert bs == [0xC0 + cp / 64, 0x80 + cp % 64];
    }
  }

  lemma DecodeEscapedChar(c: char, rest: string)
    requires !Unreserved(c)
    ensures DecodeEscape(EncodeChar(c) + rest) == Some((c, |EncodeChar(c)|))
  {
    var bs := Utf8(c);
    Utf8RoundTrip(c);
    OctetsAtEscapes(bs, rest, 0);
    OctetAtEscapes(bs, rest, 0);
  }

  /** What `encodeURIComponent` writes, `decodeURIComponent` reads back. */
  lemma {:induction false} DecodeEncode(s: string)
    ensures DecodeURIComponent(EncodeURIComponent(s)) == Some(s)
    decreases |s|
  {
    if s != [] {
      var c := s[0];
      var rest := EncodeURIComponent(s[1..]);
      var e := EncodeChar(c) + rest;
      assert EncodeURIComponent(s) == e;
      DecodeEncode(s[1..]);
      if Unreserved(c) {
        assert e[0] == c && e[1..] == rest;
      } else {
        DecodeEscapedChar(c, rest);
        assert e[0] == '%';
        assert e[|EncodeChar(c)|..] == rest;
      }
      assert [c] + s[1..] == s;
    }
  }

  /** A string is left unchanged exactly when it holds unreserved characters only. */
  lemma {:induction false} EncodeIdentity(s: string)
    ensures EncodeURIComponent(s) == s <==> forall i :: 0 <= i < |s| ==> Unreserved(s[i])
    decreases |s|
  {
    if s != [] {
      EncodeIdentity(s[1..]);
      var r := EncodeChar(s[0]) + EncodeURIComponent(s[1..]);
      if Unreserved(s[0]) {
        assert r == [s[0]] + EncodeURIComponent(s[1..]);
        if EncodeURIComponent(s[1..]) == s[1..] {
          assert r == s;
        } else {
          assert r[1..] == EncodeURIComponent(s[1..]);
        }
        assert forall i :: 1 <= i < |s| ==> s[i] == s[1..][i - 1];
      } else {
        assert |EncodeChar(s[0])| == 3 * |Utf8(s[0])|;
        assert |r| > |s|;
      }
    }
  }
}
