/** Byte-level encodings the request builders rely on: UTF-8 (`str.encode("utf-8")`),
    hexadecimal digests (`hexdigest()`), and percent-encoding with the unreserved
    character set of section 2.3 of RFC 3986, together with its decoding. */
module Codec {
  import opened Strings

  type byte = x: int | 0 <= x < 256

  /** UTF-8 encoding of one Unicode scalar value (RFC 3629). */
  function Utf8Char(c: char): (r: seq<byte>)
    ensures 1 <= |r| <= 4
    ensures c as int < 0x80 <==> r == [c as int]
    ensures c as int >= 0x80 ==> forall i :: 0 <= i < |r| ==> r[i] >= 0x80
  {
    var n := c as int;
    if n < 0x80 then [n]
    else if n < 0x800 then [0xC0 + n / 64, 0x80 + n % 64]
    else if n < 0x10000 then [0xE0 + n / 4096, 0x80 + (n / 64) % 64, 0x80 + n % 64]
    else [0xF0 + n / 262144, 0x80 + (n / 4096) % 64, 0x80 + (n / 64) % 64, 0x80 + n % 64]
  }

  /** `s.encode("utf-8")` */
  function Utf8(s: string): seq<byte>
  {
    if s == [] then [] else Utf8Char(s[0]) + Utf8(s[1..])
  }

  lemma {:induction false} Utf8Append(a: string, b: string)
    ensures Utf8(a + b) == Utf8(a) + Utf8(b)
    decreases |a|
  {
    if a != [] {
      assert (a + b)[1..] == a[1..] + b;
      Utf8Append(a[1..], b);
    } else {
      assert a + b == b;
    }
  }

  function HexUpper(d: int): (c: char)
    requires 0 <= d < 16
  {
    if d < 10 then ('0' as int + d) as char else ('A' as int + d - 10) as char
  }

  function HexLower(d: int): (c: char)
    requires 0 <= d < 16
  {
    if d < 10 then ('0' as int + d) as char else ('a' as int + d - 10) as char
  }

  predicate IsHexDigit(c: char) {
    '0' <= c <= '9' || 'A' <= c <= 'F' || 'a' <= c <= 'f'
  }

  /** The value of a hexadecimal digit, either case. */
  function HexValue(c: char): (d: int)
    requires IsHexDigit(c)
    ensures 0 <= d < 16
  {
    if '0' <= c <= '9' then c as int - '0' as int
    else if 'A' <= c <= 'F' then c as int - 'A' as int + 10
    else c as int - 'a' as int + 10
  }

  lemma HexValueInverts(d: int)
    requires 0 <= d < 16
    ensures IsHexDigit(HexUpper(d)) && HexValue(HexUpper(d)) == d
    ensures IsHexDigit(HexLower(d)) && HexValue(HexLower(d)) == d
  {
  }

  /** `bytes.hexdigest()`-style rendering: two lower-case hex digits per byte. */
  function Hex(bs: seq<byte>): (r: string)
    ensures |r| == 2 * |bs|
    ensures forall i :: 0 <= i < |r| ==> '0' <= r[i] <= '9' || 'a' <= r[i] <= 'f'
  {
    if bs == [] then [] else [HexLower(bs[0] / 16), HexLower(bs[0] % 16)] + Hex(bs[1..])
  }

  /** The unreserved characters of section 2.3 of RFC 3986, which Python's `quote`
      always leaves as they are: letters, digits, `-`, `.`, `_` and `~`. */
  predicate Unreserved(b: byte) {
    || 'A' as int <= b <= 'Z' as int
    || 'a' as int <= b <= 'z' as int
    || '0' as int <= b <= '9' as int
    || b == '-' as int || b == '.' as int || b == '_' as int || b == '~' as int
  }

  predicate UnreservedChar(c: char) {
    c as int < 256 && Unreserved(c as int)
  }

  /** `%XX` with upper-case hex digits. */
  function PercentTriple(b: byte): (r: string)
  {
    ['%', HexUpper(b / 16), HexUpper(b % 16)]
  }

  /** The strict percent-encoding of one byte: unreserved bytes stand for themselves,
      every other byte (the space included) becomes `%XX`. */
  function PercentEncodeByte(b: byte): string
  {
    if Unreserved(b) then [b as char] else PercentTriple(b)
  }

  function PercentEncode(bs: seq<byte>): string
  {
    if bs == [] then [] else PercentEncodeByte(bs[0]) + PercentEncode(bs[1..])
  }

  /** Python's `unquote_to_bytes`: a `%` followed by two hex digits stands for one
      byte; every other character stands for its UTF-8 encoding. */
  function PercentDecode(s: string): seq<byte>
    decreases |s|
  {
    if s == [] then []
    else if s[0] == '%' && |s| >= 3 && IsHexDigit(s[1]) && IsHexDigit(s[2]) then
      [HexValue(s[1]) * 16 + HexValue(s[2])] + PercentDecode(s[3..])
    else Utf8Char(s[0]) + PercentDecode(s[1..])
  }

  /** Decoding undoes the strict percent-encoding of any byte string. */
  lemma {:induction false} PercentDecodeEncode(bs: seq<byte>)
    ensures PercentDecode(PercentEncode(bs)) == bs
  {
    if bs != [] {
      var b := bs[0];
      var t := PercentEncodeByte(b);
      var rest := PercentEncode(bs[1..]);
      var s := t + rest;
      PercentDecodeEncode(bs[1..]);
      if Unreserved(b) {
        assert s[0] == b as char && s[1..] == rest;
      } else {
        HexValueInverts(b / 16);
        HexValueInverts(b % 16);
        assert s[0] == '%' && s[1] == HexUpper(b / 16) && s[2] == HexUpper(b % 16);
        assert s[3..] == rest;
      }
      assert [b] + bs[1..] == bs;
    }
  }

  /** The strict encoding uses only unreserved characters and `%`, so it never contains
      a separator such as `&`, `=`, `+` or `*`. */
  lemma {:induction false} PercentEncodeAlphabet(bs: seq<byte>)
    ensures forall i :: 0 <= i < |PercentEncode(bs)| ==>
      var c := PercentEncode(bs)[i]; c == '%' || UnreservedChar(c)
  {
    if bs != [] {
      PercentEncodeAlphabet(bs[1..]);
      var t := PercentEncodeByte(bs[0]);
      var rest := PercentEncode(bs[1..]);
      assert PercentEncode(bs) == t + rest;
      forall i | 0 <= i < |t + rest|
        ensures var c := (t + rest)[i]; c == '%' || UnreservedChar(c)
      {
        if i >= |t| {
          assert (t + rest)[i] == rest[i - |t|];
        }
      }
    }
  }

  lemma {:induction false} PercentEncodeAppend(a: seq<byte>, b: seq<byte>)
    ensures PercentEncode(a + b) == PercentEncode(a) + PercentEncode(b)
    decreases |a|
  {
    if a != [] {
      assert (a + b)[1..] == a[1..] + b;
      PercentEncodeAppend(a[1..], b);
    } else {
      assert a + b == b;
    }
  }
}
