/** Octets, the unit of `Buffer` contents and of percent-encoding. */
module Bytes {
  type Byte = b: nat | b < 256
}

/**
 * UTF-8 (RFC 3629) on the model's strings, which are sequences of Unicode
 * scalar values: what `Buffer.from(text)` stores and what the
 * application/x-www-form-urlencoded serializer encodes before escaping.
 * The decoder is strict (no overlong forms, no surrogates, nothing above
 * U+10FFFF) and is the partner of the encoder.
 */
module Utf8 {
  import opened Wrappers
  import opened Bytes

  /** The one to four bytes of one scalar value, lead byte first. */
  function EncodeChar(c: char): (bs: seq<Byte>)
    ensures 1 <= |bs| <= 4
    ensures |bs| == 1 <==> c as int < 0x80
    ensures |bs| == 1 ==> bs[0] == c as int
    ensures |bs| > 1 ==> forall i :: 0 <= i < |bs| ==> bs[i] >= 0x80
  {
    var v := c as int;
    var q1 := v / 64;
    var q2 := q1 / 64;
    var q3 := q2 / 64;
    if v < 0x80 then [v]
    else if v < 0x800 then [0xC0 + q1, 0x80 + v % 64]
    else if v < 0x10000 then [0xE0 + q2, 0x80 + q1 % 64, 0x80 + v % 64]
    else [0xF0 + q3, 0x80 + q2 % 64, 0x80 + q1 % 64, 0x80 + v % 64]
  }

  /** The UTF-8 form of a string: the characters' byte sequences, in order. */
  function Encode(s: string): (bs: seq<Byte>)
    ensures |bs| >= |s|
  {
    if s == [] then [] else EncodeChar(s[0]) + Encode(s[1..])
  }

  /** The number of bytes a lead byte announces; 0 for a byte that cannot start a character. */
  function LeadLength(b: Byte): nat {
    if b < 0x80 then 1
    else if 0xC2 <= b < 0xE0 then 2
    else if 0xE0 <= b < 0xF0 then 3
    else if 0xF0 <= b < 0xF5 then 4
    else 0
  }

  predicate IsContinuation(b: Byte) {
    0x80 <= b < 0xC0
  }

  /** The code point a lead byte and its continuation bytes carry. */
  function Payload(bs: seq<Byte>): int
    requires 1 <= |bs| <= 4
  {
    var b: seq<int> := bs;
    if |b| == 1 then b[0]
    else if |b| == 2 then (b[0] - 0xC0) * 64 + (b[1] - 0x80)
    else if |b| == 3 then ((b[0] - 0xE0) * 64 + (b[1] - 0x80)) * 64 + (b[2] - 0x80)
    else (((b[0] - 0xF0) * 64 + (b[1] - 0x80)) * 64 + (b[2] - 0x80)) * 64 + (b[3] - 0x80)
  }

  /** The smallest code point that needs n bytes: anything below is an overlong form. */
  function Least(n: nat): nat {
    if n <= 1 then 0 else if n == 2 then 0x80 else if n == 3 then 0x800 else 0x10000
  }

  /** One character from exactly the bytes its lead byte announces, if they form one. */
  function DecodeChar(bs: seq<Byte>): Option<char>
    requires 1 <= |bs| <= 4
  {
    var v := Payload(bs);
    if LeadLength(bs[0]) != |bs| || exists i :: 1 <= i < |bs| && !IsContinuation(bs[i]) then None
    else if v < Least(|bs|) || (0xD800 <= v < 0xE000) || v >= 0x110000 then None
    else Some(v as char)
  }

  /** Strict UTF-8 decoding: `None` on any ill-formed sequence. */
  function Decode(bs: seq<Byte>): Option<string>
    decreases |bs|
  {
    if bs == [] then Some([])
    else
      var n := LeadLength(bs[0]);
      if n == 0 || n > |bs| then None
      else
        match DecodeChar(bs[..n])
        case None => None
        case Some(c) =>
          match Decode(bs[n..])
          case None => None
          case Some(s) => Some([c] + s)
  }

  /** Each character's bytes decode back to it, and their lead byte announces their number. */
  lemma DecodeEncodeChar(c: char)
    ensures LeadLength(EncodeChar(c)[0]) == |EncodeChar(c)|
    ensures DecodeChar(EncodeChar(c)) == Some(c)
  {
    var v := c as int;
    var bs := EncodeChar(c);
    var q1 := v / 64;
    var q2 := q1 / 64;
    assert v == 64 * q1 + v % 64;
    assert q1 == 64 * q2 + q1 % 64;
    assert q2 == 64 * (q2 / 64) + q2 % 64;
    assert Payload(bs) == v;
  }

  /** Decoding the bytes of one character followed by more bytes. */
  lemma DecodeCons(c: char, rest: seq<Byte>)
    ensures Decode(EncodeChar(c) + rest) == match Decode(rest) case None => None case Some(s) => Some([c] + s)
  {
    var e := EncodeChar(c);
    var bs := e + rest;
    DecodeEncodeChar(c);
    assert bs[..|e|] == e;
    assert bs[|e|..] == rest;
  }

  /** Round trip: decoding undoes encoding. */
  lemma {:induction false} DecodeEncode(s: string)
    ensures Decode(Encode(s)) == Some(s)
  {
    if s != [] {
      DecodeEncode(s[1..]);
      DecodeCons(s[0], Encode(s[1..]));
      assert [s[0]] + s[1..] == s;
    }
  }

  /** Encoding distributes over concatenation. */
  lemma {:induction false} EncodeConcat(a: string, b: string)
    ensures Encode(a + b) == Encode(a) + Encode(b)
  {
    if a != [] {
      assert (a + b)[0] == a[0] && (a + b)[1..] == a[1..] + b;
      EncodeConcat(a[1..], b);
    } else {
      assert a + b == b;
    }
  }

  predicate IsAscii(s: string) {
    forall i :: 0 <= i < |s| ==> s[i] as int < 0x80
  }

  /** An ASCII string is stored one byte per character, each byte the character's code. */
  lemma {:induction false} EncodeAscii(s: string)
    requires IsAscii(s)
    ensures |Encode(s)| == |s|
    ensures forall i :: 0 <= i < |s| ==> Encode(s)[i] == s[i] as int
  {
    if s != [] {
      EncodeAscii(s[1..]);
    }
  }
}
