/**
 * `Uri.EscapeDataString`: every character outside the RFC 3986 unreserved set
 * (letters, digits, `-`, `.`, `_`, `~`) is replaced by the percent-encoding of
 * its UTF-8 bytes, with upper-case hexadecimal digits.
 */
module UriEscape {

  newtype byte = b: int | 0 <= b < 256

  predicate IsUnreserved(c: char) {
    ('A' <= c <= 'Z') || ('a' <= c <= 'z') || ('0' <= c <= '9')
    || c == '-' || c == '.' || c == '_' || c == '~'
  }

  predicate IsUpperHexDigit(c: char) {
    ('0' <= c <= '9') || ('A' <= c <= 'F')
  }

  /** The characters an escaped string is made of. */
  predicate IsEscapedChar(c: char) {
    IsUnreserved(c) || c == '%'
  }

  function HexDigit(d: int): (c: char)
    requires 0 <= d < 16
    ensures IsUpperHexDigit(c)
  {
    "0123456789ABCDEF"[d]
  }

  /** The UTF-8 encoding of one Unicode scalar value. */
  function Utf8(c: char): (bytes: seq<byte>)
    ensures 1 <= |bytes| <= 4
    ensures (|bytes| == 1) <==> (c as int < 0x80)
    ensures |bytes| == 1 ==> bytes[0] as int == c as int
  {
    var n := c as int;
    if n < 0x80 then [n as byte]
    else if n < 0x800 then
      [(0xC0 + n / 0x40) as byte, (0x80 + n % 0x40) as byte]
    else if n < 0x10000 then
      [(0xE0 + n / 0x1000) as byte, (0x80 + (n / 0x40) % 0x40) as byte, (0x80 + n % 0x40) as byte]
    else
      [(0xF0 + n / 0x40000) as byte, (0x80 + (n / 0x1000) % 0x40) as byte,
       (0x80 + (n / 0x40) % 0x40) as byte, (0x80 + n % 0x40) as byte]
  }

  /** `%XY` for one byte. */
  function PercentEncode(bytes: seq<byte>): (r: string)
    ensures |r| == 3 * |bytes|
    ensures forall i :: 0 <= i < |r| ==> (r[i] == '%' <==> i % 3 == 0)
    ensures forall i :: 0 <= i < |r| && i % 3 != 0 ==> IsUpperHexDigit(r[i])
  {
    if bytes == [] then ""
    else
      var b := bytes[0] as int;
      var rest := PercentEncode(bytes[1..]);
      var r := ['%', HexDigit(b / 16), HexDigit(b % 16)] + rest;
      assert forall i :: 3 <= i < |r| ==> r[i] == rest[i - 3];
      r
  }

  function EscapeChar(c: char): (r: string)
  {
    if IsUnreserved(c) then [c] else PercentEncode(Utf8(c))
  }

  /** `Uri.EscapeDataString(s)`. */
  function EscapeDataString(s: string): (r: string)
    ensures forall i :: 0 <= i < |r| ==> IsEscapedChar(r[i])
    ensures |r| >= |s|
  {
    if s == [] then ""
    else
      var head := EscapeChar(s[0]);
      var tail := EscapeDataString(s[1..]);
      assert forall i :: 0 <= i < |head| ==> IsEscapedChar(head[i]);
      assert forall i :: |head| <= i < |head| + |tail| ==> (head + tail)[i] == tail[i - |head|];
      head + tail
  }

  /** A string made of unreserved characters is left as it is. */
  lemma {:induction false} EscapeUnreservedIsIdentity(s: string)
    requires forall i :: 0 <= i < |s| ==> IsUnreserved(s[i])
    ensures EscapeDataString(s) == s
  {
    if s != [] {
      EscapeUnreservedIsIdentity(s[1..]);
    }
  }

  /** An escaped string holds none of the characters that delimit a query string. */
  lemma EscapedHasNoDelimiters(s: string)
    ensures var r := EscapeDataString(s);
      forall i :: 0 <= i < |r| ==> r[i] != '&' && r[i] != '=' && r[i] != '#' && r[i] != '?' && r[i] != '/'
  {
  }
}
