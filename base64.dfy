/**
 * Base64 with the alphabets of RFC 4648 (section 4, the standard alphabet, and section 5,
 * the URL- and filename-safe alphabet), and the "forgiving-base64 decode" of the WHATWG
 * Infra standard (section 4.6), which is what the platform's `atob` computes; `None` is
 * `atob` throwing an InvalidCharacterError.
 */
module Base64 {
  import opened Wrappers
  import Utf8

  type Byte = Utf8.Byte

  /** ASCII whitespace in the WHATWG sense: TAB, LF, FF, CR and SPACE. */
  predicate IsAsciiWhitespace(c: char) {
    c == '\t' || c == '\n' || c as int == 0x0C || c == '\r' || c == ' '
  }

  /** The six-bit value of a character of the standard alphabet. */
  function SextetOf(c: char): (v: Option<int>)
    ensures v.Some? ==> 0 <= v.value < 64
    ensures v.Some? ==> !IsAsciiWhitespace(c) && c != '='
  {
    if 'A' <= c <= 'Z' then Some(c as int - 'A' as int)
    else if 'a' <= c <= 'z' then Some(c as int - 'a' as int + 26)
    else if '0' <= c <= '9' then Some(c as int - '0' as int + 52)
    else if c == '+' then Some(62)
    else if c == '/' then Some(63)
    else None
  }

  /** The character of the standard alphabet for a six-bit value. */
  function StdChar(v: int): (c: char)
    requires 0 <= v < 64
    ensures SextetOf(c) == Some(v)
  {
    if v < 26 then ('A' as int + v) as char
    else if v < 52 then ('a' as int + v - 26) as char
    else if v < 62 then ('0' as int + v - 52) as char
    else if v == 62 then '+'
    else '/'
  }

  /** The character of the URL-safe alphabet: `-` and `_` in place of `+` and `/`. */
  function UrlChar(v: int): (c: char)
    requires 0 <= v < 64
    ensures v < 62 ==> c == StdChar(v)
  {
    if v == 62 then '-' else if v == 63 then '_' else StdChar(v)
  }

  predicate IsSextets(vs: seq<int>) {
    forall k :: 0 <= k < |vs| ==> 0 <= vs[k] < 64
  }

  predicate InAlphabet(s: string) {
    forall k :: 0 <= k < |s| ==> SextetOf(s[k]).Some?
  }

  // ---- Encoding -------------------------------------------------------------------------

  /** The six-bit groups of a byte string: four per three bytes, two or three for a short tail. */
  function Sextets(bs: seq<Byte>): (vs: seq<int>)
    ensures IsSextets(vs) && |vs| % 4 != 1
    ensures |vs| == (|bs| / 3) * 4 + (if |bs| % 3 == 0 then 0 else |bs| % 3 + 1)
    decreases |bs|
  {
    if |bs| == 0 then []
    else
      var x: int := bs[0];
      if |bs| == 1 then [x / 4, (x % 4) * 16]
      else
        var y: int := bs[1];
        if |bs| == 2 then [x / 4, (x % 4) * 16 + y / 16, (y % 16) * 4]
        else
          var z: int := bs[2];
          [x / 4, (x % 4) * 16 + y / 16, (y % 16) * 4 + z / 64, z % 64] + Sextets(bs[3..])
  }

  /** The `=` signs that bring `n` characters up to a multiple of four. */
  function Padding(n: nat): (p: string)
    ensures (n + |p|) % 4 == 0 || n % 4 == 1
    ensures forall k :: 0 <= k < |p| ==> p[k] == '='
  {
    if n % 4 == 2 then "==" else if n % 4 == 3 then "=" else ""
  }

  function StdChars(vs: seq<int>): (s: string)
    requires IsSextets(vs)
    ensures |s| == |vs| && InAlphabet(s)
  {
    seq(|vs|, k requires 0 <= k < |vs| => StdChar(vs[k]))
  }

  /** Base64 in the standard alphabet, with or without the trailing `=` padding. */
  function EncodeStd(bs: seq<Byte>, padded: bool): string {
    var vs := Sextets(bs);
    StdChars(vs) + (if padded then Padding(|vs|) else "")
  }

  /** Base64url: base64 in the URL- and filename-safe alphabet, with or without padding. */
  function EncodeUrl(bs: seq<Byte>, padded: bool): string {
    var vs := Sextets(bs);
    seq(|vs|, k requires 0 <= k < |vs| => UrlChar(vs[k])) + (if padded then Padding(|vs|) else "")
  }

  /** Maps `-` to `+` and `_` to `/` and leaves every other character alone. */
  function UrlToStd(s: string): (r: string)
    ensures |r| == |s|
    ensures forall k :: 0 <= k < |s| ==>
      r[k] == (if s[k] == '-' then '+' else if s[k] == '_' then '/' else s[k])
  {
    seq(|s|, k requires 0 <= k < |s| => if s[k] == '-' then '+' else if s[k] == '_' then '/' else s[k])
  }

  /** Changing the URL-safe alphabet back to the standard one turns base64url into base64. */
  lemma UrlToStdOfEncodeUrl(bs: seq<Byte>, padded: bool)
    ensures UrlToStd(EncodeUrl(bs, padded)) == EncodeStd(bs, padded)
  {
    var vs := Sextets(bs);
    var u := EncodeUrl(bs, padded);
    var e := EncodeStd(bs, padded);
    assert |u| == |e|;
    forall k | 0 <= k < |u| ensures UrlToStd(u)[k] == e[k] {
      if k < |vs| {
        assert u[k] == UrlChar(vs[k]) && e[k] == StdChar(vs[k]);
      } else {
        assert u[k] == e[k] == '=';
      }
    }
  }

  // ---- The forgiving decode ---------------------------------------------------------------

  function StripWhitespace(s: string): (r: string)
    ensures forall k :: 0 <= k < |r| ==> !IsAsciiWhitespace(r[k])
    ensures forall c :: c in s && !IsAsciiWhitespace(c) ==> c in r
    decreases |s|
  {
    if s == [] then []
    else if IsAsciiWhitespace(s[0]) then StripWhitespace(s[1..])
    else [s[0]] + StripWhitespace(s[1..])
  }

  lemma {:induction false} StripWhitespaceOfClean(s: string)
    requires forall k :: 0 <= k < |s| ==> !IsAsciiWhitespace(s[k])
    ensures StripWhitespace(s) == s
    decreases |s|
  {
    if s != [] {
      StripWhitespaceOfClean(s[1..]);
      assert [s[0]] + s[1..] == s;
    }
  }

  /** A length that is a multiple of four loses one or two trailing `=`; nothing else does. */
  function Unpadded(t: string): (u: string)
    ensures |t| - 2 <= |u| <= |t| && u == t[..|u|]
    ensures forall k :: |u| <= k < |t| ==> t[k] == '='
  {
    if |t| % 4 == 0 && |t| >= 2 && t[|t| - 2] == '=' && t[|t| - 1] == '=' then t[..|t| - 2]
    else if |t| % 4 == 0 && |t| >= 1 && t[|t| - 1] == '=' then t[..|t| - 1]
    else t
  }

  function Values(s: string): (vs: seq<int>)
    requires InAlphabet(s)
    ensures |vs| == |s| && IsSextets(vs)
  {
    seq(|s|, k requires 0 <= k < |s| => SextetOf(s[k]).value)
  }

  /** Reassembles bytes from six-bit groups, dropping the bits left over at the end. */
  function DecodeSextets(vs: seq<int>): (bs: seq<Byte>)
    requires IsSextets(vs) && |vs| % 4 != 1
    ensures |bs| == (|vs| / 4) * 3 + (if |vs| % 4 == 0 then 0 else |vs| % 4 - 1)
    decreases |vs|
  {
    if |vs| < 2 then []
    else if |vs| == 2 then [vs[0] * 4 + vs[1] / 16]
    else if |vs| == 3 then [vs[0] * 4 + vs[1] / 16, (vs[1] % 16) * 16 + vs[2] / 4]
    else
      [vs[0] * 4 + vs[1] / 16, (vs[1] % 16) * 16 + vs[2] / 4, (vs[2] % 4) * 64 + vs[3]]
      + DecodeSextets(vs[4..])
  }

  /**
   * `atob`: strip ASCII whitespace; when the length is a multiple of four remove one or two
   * trailing `=`; fail when the length leaves remainder 1 modulo 4 or a character is outside
   * the standard alphabet; otherwise read six bits per character.
   */
  function ForgivingDecode(s: string): Option<seq<Byte>> {
    var u := Unpadded(StripWhitespace(s));
    if |u| % 4 == 1 || !InAlphabet(u) then None else Some(DecodeSextets(Values(u)))
  }

  // ---- Properties -------------------------------------------------------------------------

  lemma DecodeGroup(x: int, y: int, z: int)
    requires 0 <= x < 256 && 0 <= y < 256 && 0 <= z < 256
    ensures var a, b, c, d := x / 4, (x % 4) * 16 + y / 16, (y % 16) * 4 + z / 64, z % 64;
      a * 4 + b / 16 == x && (b % 16) * 16 + c / 4 == y && (c % 4) * 64 + d == z
  {
  }

  /** Reassembling the six-bit groups of a byte string gives back that byte string. */
  lemma {:induction false} DecodeSextetsOfSextets(bs: seq<Byte>)
    ensures DecodeSextets(Sextets(bs)) == bs
    decreases |bs|
  {
    if |bs| >= 3 {
      DecodeSextetsOfSextets(bs[3..]);
      DecodeFirstGroup(bs);
      assert bs == bs[..3] + bs[3..];
    } else {
      DecodeShortTail(bs);
    }
  }

  /** The first three bytes come back from the first four six-bit groups. */
  lemma {:induction false} DecodeFirstGroup(bs: seq<Byte>)
    requires |bs| >= 3
    ensures DecodeSextets(Sextets(bs)) == bs[..3] + DecodeSextets(Sextets(bs[3..]))
  {
    var x: int, y: int, z: int := bs[0], bs[1], bs[2];
    assert Sextets(bs) == [x / 4, (x % 4) * 16 + y / 16, (y % 16) * 4 + z / 64, z % 64] + Sextets(bs[3..]);
    DecodeGroup(x, y, z);
    DecodeFront(x / 4, (x % 4) * 16 + y / 16, (y % 16) * 4 + z / 64, z % 64, Sextets(bs[3..]));
    assert bs[..3] == [x, y, z];
  }

  /** Decoding turns the first four six-bit groups into three bytes and goes on with the rest. */
  lemma {:induction false} DecodeFront(a: int, b: int, c: int, d: int, rest: seq<int>)
    requires 0 <= a < 64 && 0 <= b < 64 && 0 <= c < 64 && 0 <= d < 64
    requires IsSextets(rest) && |rest| % 4 != 1
    ensures DecodeSextets([a, b, c, d] + rest) == [a * 4 + b / 16, (b % 16) * 16 + c / 4, (c % 4) * 64 + d] + DecodeSextets(rest)
  {
    var vs := [a, b, c, d] + rest;
    assert vs[4..] == rest;
    assert IsSextets(vs) by {
      assert forall k :: 4 <= k < |vs| ==> vs[k] == rest[k - 4];
    }
    assert (|rest| + 4) % 4 == |rest| % 4;
  }

  /** One or two bytes left over come back from their two or three six-bit groups. */
  lemma {:induction false} DecodeShortTail(bs: seq<Byte>)
    requires |bs| < 3
    ensures DecodeSextets(Sextets(bs)) == bs
  {
    if |bs| > 0 {
      DecodeGroup(bs[0], if |bs| > 1 then bs[1] else 0, 0);
    }
  }

  /** The padding the encoder appends is exactly what the forgiving decode removes. */
  lemma UnpaddedOfEncoded(chars: string, padded: bool)
    requires InAlphabet(chars) && |chars| % 4 != 1
    ensures Unpadded(chars + (if padded then Padding(|chars|) else "")) == chars
  {
    var s := chars + (if padded then Padding(|chars|) else "");
    assert s[..|chars|] == chars;
    if |chars| > 0 {
      assert s[|chars| - 1] == chars[|chars| - 1];
      assert SextetOf(s[|chars| - 1]).Some?;
    }
  }

  /** `atob` decodes what the standard-alphabet encoder produces, padded or not. */
  lemma ForgivingDecodeOfEncodeStd(bs: seq<Byte>, padded: bool)
    ensures ForgivingDecode(EncodeStd(bs, padded)) == Some(bs)
  {
    var vs := Sextets(bs);
    var chars := StdChars(vs);
    var s := EncodeStd(bs, padded);
    forall k | 0 <= k < |s| ensures !IsAsciiWhitespace(s[k]) {
      if k < |chars| { assert SextetOf(s[k]).Some?; } else { assert s[k] == '='; }
    }
    StripWhitespaceOfClean(s);
    UnpaddedOfEncoded(chars, padded);
    assert Values(chars) == vs;
    DecodeSextetsOfSextets(bs);
  }

  /** `atob` fails on any character that is neither whitespace, `=` nor in the standard alphabet. */
  lemma ForgivingDecodeRejects(s: string, k: nat)
    requires k < |s| && SextetOf(s[k]).None? && !IsAsciiWhitespace(s[k]) && s[k] != '='
    ensures ForgivingDecode(s) == None
  {
    var t := StripWhitespace(s);
    var u := Unpadded(t);
    assert s[k] in s;
    var j :| 0 <= j < |t| && t[j] == s[k];
    assert j < |u|;
    assert u[j] == s[k];
  }
}
