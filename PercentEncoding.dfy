/**
 * Percent-encoding of captured URL parameters, as in section 2.1 of
 * RFC 3986, restricted to ASCII: `Decode` stands for JavaScript's
 * `decodeURIComponent` applied to a captured value, `Encode` for
 * `encodeURIComponent`, under which the captured values are decoded back.
 */
module PercentEncoding {

  predicate IsHexDigit(c: char) {
    ('0' <= c <= '9') || ('A' <= c <= 'F') || ('a' <= c <= 'f')
  }

  function HexValue(c: char): (v: nat)
    requires IsHexDigit(c)
    ensures v < 16
  {
    if '0' <= c <= '9' then (c - '0') as nat
    else if 'A' <= c <= 'F' then (c - 'A') as nat + 10
    else (c - 'a') as nat + 10
  }

  /** The upper-case hexadecimal digit of a value below 16. */
  function HexDigit(v: nat): (c: char)
    requires v < 16
    ensures IsHexDigit(c) && HexValue(c) == v
  {
    if v < 10 then ('0' as int + v) as char else ('A' as int + v - 10) as char
  }

  /** Whether `s` starts with an escape `%XY` of an ASCII character. */
  predicate StartsWithEscape(s: string) {
    |s| >= 3 && s[0] == '%' && IsHexDigit(s[1]) && IsHexDigit(s[2]) && HexValue(s[1]) < 8
  }

  /**
   * Replaces every escape `%XY` of an ASCII character by that character;
   * every other character, a `%` that starts no such escape included, is
   * kept as it is.
   */
  function Decode(s: string): (r: string)
    ensures |r| <= |s|
    ensures '%' !in s ==> r == s
    decreases |s|
  {
    if s == [] then []
    else if StartsWithEscape(s) then [(HexValue(s[1]) * 16 + HexValue(s[2])) as char] + Decode(s[3..])
    else [s[0]] + Decode(s[1..])
  }

  /** The characters `encodeURIComponent` leaves as they are. */
  predicate IsUnreserved(c: char) {
    ('A' <= c <= 'Z') || ('a' <= c <= 'z') || ('0' <= c <= '9')
    || c in "-_.!~*'()"
  }

  predicate IsAscii(s: string) {
    forall i :: 0 <= i < |s| ==> s[i] < 128 as char
  }

  /** One character as `encodeURIComponent` writes it. */
  function EncodeChar(c: char): (r: string)
    requires c < 128 as char
    ensures |r| == 1 || |r| == 3
    ensures forall i :: 0 <= i < |r| ==> IsUnreserved(r[i]) || r[i] == '%' || IsHexDigit(r[i])
  {
    if IsUnreserved(c) then [c] else ['%', HexDigit(c as nat / 16), HexDigit(c as nat % 16)]
  }

  function Encode(s: string): (r: string)
    requires IsAscii(s)
    ensures |r| >= |s|
    ensures forall i :: 0 <= i < |r| ==> IsUnreserved(r[i]) || r[i] == '%' || IsHexDigit(r[i])
    ensures '/' !in r
  {
    if s == [] then [] else EncodeChar(s[0]) + Encode(s[1..])
  }

  /** Decoding undoes the encoding of one character. */
  lemma DecodeEncodeChar(c: char, t: string)
    requires c < 128 as char
    ensures Decode(EncodeChar(c) + t) == [c] + Decode(t)
  {
    var e := EncodeChar(c) + t;
    if IsUnreserved(c) {
      assert e[0] == c && e[1..] == t;
      assert !StartsWithEscape(e);
    } else {
      var hi, lo := c as nat / 16, c as nat % 16;
      assert e[0] == '%' && e[1] == HexDigit(hi) && e[2] == HexDigit(lo) && e[3..] == t;
      assert StartsWithEscape(e);
      assert (HexValue(e[1]) * 16 + HexValue(e[2])) as char == c;
    }
  }

  /** Captured values encoded with `encodeURIComponent` decode to themselves. */
  lemma {:induction false} DecodeEncode(s: string)
    requires IsAscii(s)
    ensures Decode(Encode(s)) == s
  {
    if s != [] {
      assert IsAscii(s[1..]);
      DecodeEncodeChar(s[0], Encode(s[1..]));
      DecodeEncode(s[1..]);
    }
  }
}
