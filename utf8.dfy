/** UTF-8 as Python's `str.encode('utf-8')` and strict `bytes.decode('utf-8')` use it
    (RFC 3629, section 3 and section 4). A `char` is a Unicode scalar value. */
module Utf8 {
  import opened Wrappers

  type byte = b: int | 0 <= b < 0x100
  type bytes = seq<byte>

  predicate IsContinuation(b: byte) {
    0x80 <= b < 0xC0
  }

  /** The one to four bytes that encode `c`. */
  function EncodeChar(c: char): (r: bytes)
    ensures 1 <= |r| <= 4
    ensures (c as int < 0x80) == (|r| == 1)
  {
    var n := c as int;
    if n < 0x80 then
      [n]
    else if n < 0x800 then
      [0xC0 + n / 64, 0x80 + n % 64]
    else if n < 0x10000 then
      var q := n / 64;
      [0xE0 + q / 64, 0x80 + q % 64, 0x80 + n % 64]
    else
      var q1 := n / 64;
      var q2 := q1 / 64;
      [0xF0 + q2 / 64, 0x80 + q2 % 64, 0x80 + q1 % 64, 0x80 + n % 64]
  }

  /** `s.encode('utf-8')`. */
  function Encode(s: string): (b: bytes) {
    if s == [] then [] else EncodeChar(s[0]) + Encode(s[1..])
  }

  /** The character that the well-formed sequence at the head of `s` encodes, and its
      length; None when the head of `s` is not a well-formed UTF-8 sequence (a stray
      continuation byte, an overlong form, a surrogate, a value above U+10FFFF, or a
      truncated sequence). */
  function DecodeFirst(s: bytes): (r: Option<(char, nat)>)
    requires |s| > 0
    ensures r.Some? ==> 1 <= r.value.1 <= |s|
  {
    var b0: int, b1: int, b2: int, b3: int :=
      s[0], if |s| > 1 then s[1] else 0, if |s| > 2 then s[2] else 0, if |s| > 3 then s[3] else 0;
    if b0 < 0x80 then
      Some((b0 as char, 1))
    else if 0xC2 <= b0 < 0xE0 then
      if |s| >= 2 && IsContinuation(s[1]) then
        Some((((b0 - 0xC0) * 64 + (b1 - 0x80)) as char, 2))
      else None
    else if 0xE0 <= b0 < 0xF0 then
      if |s| >= 3 && IsContinuation(s[1]) && IsContinuation(s[2])
         && (b0 != 0xE0 || s[1] >= 0xA0) && (b0 != 0xED || s[1] < 0xA0)
      then
        Some((((b0 - 0xE0) * 4096 + (b1 - 0x80) * 64 + (b2 - 0x80)) as char, 3))
      else None
    else if 0xF0 <= b0 < 0xF5 then
      if |s| >= 4 && IsContinuation(s[1]) && IsContinuation(s[2]) && IsContinuation(s[3])
         && (b0 != 0xF0 || s[1] >= 0x90) && (b0 != 0xF4 || s[1] < 0x90)
      then
        Some((((b0 - 0xF0) * 262144 + (b1 - 0x80) * 4096 + (b2 - 0x80) * 64 + (b3 - 0x80)) as char, 4))
      else None
    else
      None
  }

  /** `s.decode('utf-8')`: the decoded text, or UnicodeDecodeError when `s` is not
      well-formed UTF-8. */
  function Decode(s: bytes): (r: Result<string, Exception>)
    ensures r.Err? ==> r.error == UnicodeDecodeError
    decreases |s|
  {
    if s == [] then Ok([])
    else
      match DecodeFirst(s)
      case None => Err(UnicodeDecodeError)
      case Some((c, k)) =>
        match Decode(s[k..])
        case Ok(t) => Ok([c] + t)
        case Err(e) => Err(e)
  }

  lemma Split64(q: int, r: int)
    requires 0 <= r < 64
    ensures (q * 64 + r) / 64 == q && (q * 64 + r) % 64 == r
  {
  }

  /** Decoding reads back exactly the character that EncodeChar wrote, whatever follows. */
  lemma DecodeFirstOfEncodeChar(c: char, rest: bytes)
    ensures DecodeFirst(EncodeChar(c) + rest) == Some((c, |EncodeChar(c)|))
  {
    var n := c as int;
    var s := EncodeChar(c) + rest;
    if n < 0x80 {
    } else if n < 0x800 {
      assert s[0] == 0xC0 + n / 64 && s[1] == 0x80 + n % 64;
    } else if n < 0x10000 {
      var q := n / 64;
      assert s[0] == 0xE0 + q / 64 && s[1] == 0x80 + q % 64 && s[2] == 0x80 + n % 64;
    } else {
      var q1 := n / 64;
      var q2 := q1 / 64;
      assert s[0] == 0xF0 + q2 / 64 && s[1] == 0x80 + q2 % 64;
      assert s[2] == 0x80 + q1 % 64 && s[3] == 0x80 + n % 64;
    }
  }

  lemma {:induction false} EncodeAppend(a: string, b: string)
    ensures Encode(a + b) == Encode(a) + Encode(b)
  {
    if a == [] {
      assert a + b == b;
    } else {
      assert (a + b)[0] == a[0];
      assert (a + b)[1..] == a[1..] + b;
      EncodeAppend(a[1..], b);
    }
  }

  /** Round trip: decoding what `encode('utf-8')` produced gives the text back. */
  lemma {:induction false} DecodeEncode(s: string)
    ensures Decode(Encode(s)) == Ok(s)
  {
    if s != [] {
      var e := EncodeChar(s[0]);
      var tail := Encode(s[1..]);
      DecodeFirstOfEncodeChar(s[0], tail);
      assert (e + tail)[|e|..] == tail;
      DecodeEncode(s[1..]);
      assert [s[0]] + s[1..] == s;
    }
  }

  /** The reverse round trip: bytes that decode are exactly the encoding of their text. */
  lemma {:induction false} EncodeDecode(b: bytes)
    requires Decode(b).Ok?
    ensures Encode(Decode(b).value) == b
  {
    if b != [] {
      var (c, k) := DecodeFirst(b).value;
      EncodeDecodeFirst(b);
      EncodeDecode(b[k..]);
      assert Decode(b).value == [c] + Decode(b[k..]).value;
      assert ([c] + Decode(b[k..]).value)[1..] == Decode(b[k..]).value;
      assert b == b[..k] + b[k..];
    }
  }

  lemma EncodeDecodeFirst(b: bytes)
    requires |b| > 0 && DecodeFirst(b).Some?
    ensures EncodeChar(DecodeFirst(b).value.0) == b[..DecodeFirst(b).value.1]
  {
    var b0: int := b[0];
    if b0 < 0x80 {
    } else if b0 < 0xE0 {
      Split64(b0 - 0xC0, b[1] - 0x80);
    } else if b0 < 0xF0 {
      var q: int := (b0 - 0xE0) * 64 + (b[1] - 0x80);
      Split64(q, b[2] - 0x80);
      Split64(b0 - 0xE0, b[1] - 0x80);
    } else {
      var q2: int := (b0 - 0xF0) * 64 + (b[1] - 0x80);
      var q1: int := q2 * 64 + (b[2] - 0x80);
      Split64(q1, b[3] - 0x80);
      Split64(q2, b[2] - 0x80);
      Split64(b0 - 0xF0, b[1] - 0x80);
    }
  }

  /** Characters below U+0080 encode as the single byte of the same value. */
  lemma {:induction false} EncodeAscii(s: string)
    requires forall i :: 0 <= i < |s| ==> s[i] as int < 0x80
    ensures |Encode(s)| == |s|
    ensures forall i :: 0 <= i < |s| ==> Encode(s)[i] == s[i] as int
  {
    if s != [] {
      EncodeAscii(s[1..]);
    }
  }
}
