/**
 * UTF-8 as RFC 3629 defines it. `Decode` is what ECMAScript's `decodeURIComponent`
 * computes on a string in which every byte is written as a `%XX` escape: it reads the
 * bytes as UTF-8 and fails (throws a URIError) on a sequence that is not a valid UTF-8
 * encoding of a Unicode scalar value (bad leading byte, missing or bad continuation byte,
 * overlong form, surrogate, or a value above U+10FFFF).
 */
module Utf8 {
  import opened Wrappers

  type Byte = b: int | 0 <= b < 256

  predicate IsScalar(n: int) { 0 <= n < 0xD800 || 0xE000 <= n < 0x11_0000 }

  predicate IsContinuation(b: Byte) { 0x80 <= b < 0xC0 }

  // ---- Encoding -------------------------------------------------------------------------

  /** The one- to four-byte UTF-8 form of one scalar value. */
  function EncodeChar(c: char): (bs: seq<Byte>)
    ensures 1 <= |bs| <= 4
  {
    var n := c as int;
    if n < 0x80 then [n]
    else if n < 0x800 then [0xC0 + n / 64, 0x80 + n % 64]
    else if n < 0x1_0000 then [0xE0 + n / 4096, 0x80 + (n / 64) % 64, 0x80 + n % 64]
    else [0xF0 + n / 262144, 0x80 + (n / 4096) % 64, 0x80 + (n / 64) % 64, 0x80 + n % 64]
  }

  function Encode(s: string): seq<Byte>
    decreases |s|
  {
    if s == [] then [] else EncodeChar(s[0]) + Encode(s[1..])
  }

  // ---- Decoding -------------------------------------------------------------------------

  /** How many bytes a sequence starting with `b` has; 0 when `b` cannot start one. */
  function SequenceLength(b: Byte): nat {
    if b < 0x80 then 1
    else if 0xC0 <= b < 0xE0 then 2
    else if 0xE0 <= b < 0xF0 then 3
    else if 0xF0 <= b < 0xF8 then 4
    else 0
  }

  /** The scalar value the `n` bytes at the front of `bs` spell, before range checks. */
  function Assemble(bs: seq<Byte>, n: nat): int
    requires 1 <= n <= 4 && n <= |bs|
  {
    var b0: int, b1: int, b2: int, b3: int :=
      bs[0], if n > 1 then bs[1] else 0, if n > 2 then bs[2] else 0, if n > 3 then bs[3] else 0;
    if n == 1 then b0
    else if n == 2 then (b0 - 0xC0) * 64 + (b1 - 0x80)
    else if n == 3 then (b0 - 0xE0) * 4096 + (b1 - 0x80) * 64 + (b2 - 0x80)
    else (b0 - 0xF0) * 262144 + (b1 - 0x80) * 4096 + (b2 - 0x80) * 64 + (b3 - 0x80)
  }

  /** The smallest value that needs `n` bytes (shorter forms are overlong). */
  function MinForLength(n: nat): int {
    if n <= 1 then 0 else if n == 2 then 0x80 else if n == 3 then 0x800 else 0x1_0000
  }

  /** Decodes the sequence at the front of `bs`: the character and how many bytes it used. */
  function DecodeFirst(bs: seq<Byte>): (r: Option<(char, nat)>)
    requires |bs| > 0
    ensures r.Some? ==> 1 <= r.value.1 <= 4 && r.value.1 <= |bs|
  {
    var n := SequenceLength(bs[0]);
    if n == 0 || |bs| < n then None
    else if exists k :: 1 <= k < n && !IsContinuation(bs[k]) then None
    else
      var v := Assemble(bs, n);
      if v < MinForLength(n) || !IsScalar(v) then None
      else Some((v as char, n))
  }

  /** Strict decoding of a whole byte string; None where `decodeURIComponent` throws. */
  function Decode(bs: seq<Byte>): Option<string>
    decreases |bs|
  {
    if bs == [] then Some([])
    else match DecodeFirst(bs)
      case None => None
      case Some((c, n)) =>
        match Decode(bs[n..])
        case None => None
        case Some(rest) => Some([c] + rest)
  }

  // ---- Round trip -----------------------------------------------------------------------

  lemma SplitBase64(n: nat)
    ensures n == (n / 64) * 64 + n % 64
    ensures n / 64 == (n / 4096) * 64 + (n / 64) % 64
    ensures n / 4096 == (n / 262144) * 64 + (n / 4096) % 64
  {
    assert (n / 64) / 64 == n / 4096;
    assert (n / 4096) / 64 == n / 262144;
  }

  lemma AssembleEncodeChar(c: char)
    ensures Assemble(EncodeChar(c), |EncodeChar(c)|) == c as int
  {
    SplitBase64(c as int);
  }

  /**
   * The encoding of a character has a lead byte giving its length, continuation bytes after
   * it, and is not overlong.
   */
  lemma EncodeCharShape(c: char)
    ensures SequenceLength(EncodeChar(c)[0]) == |EncodeChar(c)|
    ensures forall k :: 1 <= k < |EncodeChar(c)| ==> IsContinuation(EncodeChar(c)[k])
    ensures MinForLength(|EncodeChar(c)|) <= c as int
  {
    SplitBase64(c as int);
  }

  /** Decoding the encoding of a character reads exactly that character back. */
  lemma DecodeFirstEncodeChar(c: char, rest: seq<Byte>)
    ensures DecodeFirst(EncodeChar(c) + rest) == Some((c, |EncodeChar(c)|))
  {
    var e := EncodeChar(c);
    var bs := e + rest;
    assert forall k :: 0 <= k < |e| ==> bs[k] == e[k];
    EncodeCharShape(c);
    AssembleEncodeChar(c);
    assert Assemble(bs, |e|) == Assemble(e, |e|);
  }

  /** For every string, `Decode(Encode(s)) == Some(s)`. */
  lemma {:induction false} DecodeEncode(s: string)
    ensures Decode(Encode(s)) == Some(s)
    decreases |s|
  {
    if s != [] {
      var e := EncodeChar(s[0]);
      var bs := Encode(s);
      assert bs == e + Encode(s[1..]);
      DecodeFirstEncodeChar(s[0], Encode(s[1..]));
      assert bs[|e|..] == Encode(s[1..]);
      DecodeEncode(s[1..]);
      assert [s[0]] + s[1..] == s;
    }
  }

  // ---- The other direction: a successful decode is an exact inverse ---------------------

  lemma DivMod64(q: int, r: int)
    requires q >= 0 && 0 <= r < 64
    ensures (q * 64 + r) / 64 == q && (q * 64 + r) % 64 == r
  {
  }

  lemma EncodeTwo(b0: int, b1: int)
    requires 0xC0 <= b0 < 0xE0 && 0x80 <= b1 < 0xC0
    requires (b0 - 0xC0) * 64 + (b1 - 0x80) >= 0x80
    ensures EncodeChar(((b0 - 0xC0) * 64 + (b1 - 0x80)) as char) == [b0, b1]
  {
    DivMod64(b0 - 0xC0, b1 - 0x80);
  }

  lemma EncodeThree(b0: int, b1: int, b2: int)
    requires 0xE0 <= b0 < 0xF0 && 0x80 <= b1 < 0xC0 && 0x80 <= b2 < 0xC0
    requires var v := (b0 - 0xE0) * 4096 + (b1 - 0x80) * 64 + (b2 - 0x80); v >= 0x800 && IsScalar(v)
    ensures EncodeChar(((b0 - 0xE0) * 4096 + (b1 - 0x80) * 64 + (b2 - 0x80)) as char) == [b0, b1, b2]
  {
    var hi := (b0 - 0xE0) * 64 + (b1 - 0x80);
    var v := hi * 64 + (b2 - 0x80);
    assert v == (b0 - 0xE0) * 4096 + (b1 - 0x80) * 64 + (b2 - 0x80);
    DivMod64(hi, b2 - 0x80);
    DivMod64(b0 - 0xE0, b1 - 0x80);
    assert v / 4096 == (v / 64) / 64;
  }

  lemma EncodeFour(b0: int, b1: int, b2: int, b3: int)
    requires 0xF0 <= b0 < 0xF8 && 0x80 <= b1 < 0xC0 && 0x80 <= b2 < 0xC0 && 0x80 <= b3 < 0xC0
    requires var v := (b0 - 0xF0) * 262144 + (b1 - 0x80) * 4096 + (b2 - 0x80) * 64 + (b3 - 0x80);
      v >= 0x1_0000 && IsScalar(v)
    ensures EncodeChar(((b0 - 0xF0) * 262144 + (b1 - 0x80) * 4096 + (b2 - 0x80) * 64 + (b3 - 0x80)) as char)
      == [b0, b1, b2, b3]
  {
    var top := b0 - 0xF0;
    var mid := top * 64 + (b1 - 0x80);
    var hi := mid * 64 + (b2 - 0x80);
    var v := hi * 64 + (b3 - 0x80);
    assert v == (b0 - 0xF0) * 262144 + (b1 - 0x80) * 4096 + (b2 - 0x80) * 64 + (b3 - 0x80);
    DivMod64(hi, b3 - 0x80);
    DivMod64(mid, b2 - 0x80);
    DivMod64(top, b1 - 0x80);
    assert v / 4096 == (v / 64) / 64;
    assert v / 262144 == (v / 4096) / 64;
  }

  lemma EncodeDecodeFirst(bs: seq<Byte>)
    requires |bs| > 0 && DecodeFirst(bs).Some?
    ensures EncodeChar(DecodeFirst(bs).value.0) == bs[..DecodeFirst(bs).value.1]
  {
    var n := SequenceLength(bs[0]);
    assert forall k :: 1 <= k < n ==> IsContinuation(bs[k]);
    if n == 2 {
      EncodeTwo(bs[0], bs[1]);
    } else if n == 3 {
      EncodeThree(bs[0], bs[1], bs[2]);
    } else if n == 4 {
      EncodeFour(bs[0], bs[1], bs[2], bs[3]);
    }
  }

  /** Whatever `Decode` accepts is the UTF-8 encoding of what it returns. */
  lemma {:induction false} EncodeDecode(bs: seq<Byte>)
    requires Decode(bs).Some?
    ensures Encode(Decode(bs).value) == bs
    decreases |bs|
  {
    if bs != [] {
      var n, rest := DecodeHead(bs);
      EncodeDecode(bs[n..]);
      SplitAt(bs, n);
    }
  }

  lemma SplitAt(bs: seq<Byte>, n: nat)
    requires n <= |bs|
    ensures bs[..n] + bs[n..] == bs
  {
  }

  /** A successful decode re-encodes as the first sequence's bytes followed by the rest's encoding. */
  lemma DecodeHead(bs: seq<Byte>) returns (n: nat, rest: string)
    requires bs != [] && Decode(bs).Some?
    ensures 1 <= n <= |bs| && Decode(bs[n..]) == Some(rest)
    ensures Encode(Decode(bs).value) == bs[..n] + Encode(rest)
  {
    var c: char;
    c, n := DecodeFirst(bs).value.0, DecodeFirst(bs).value.1;
    rest := Decode(bs[n..]).value;
    EncodeDecodeFirst(bs);
    var s := Decode(bs).value;
    assert s == [c] + rest;
    assert s[1..] == rest;
  }

  // ---- The fallback -----------------------------------------------------------------------

  /** The bytes as a "binary string": one character per byte, with that byte's code. */
  function Latin1(bs: seq<Byte>): (s: string)
    ensures |s| == |bs|
    ensures forall k :: 0 <= k < |bs| ==> s[k] as int == bs[k]
  {
    seq(|bs|, k requires 0 <= k < |bs| => bs[k] as char)
  }
}
