/**
 * The base 64 encoding of section 4 of RFC 4648, with its standard
 * alphabet and `=` padding: what `Buffer.toString("base64")` writes. The
 * decoder is the strict one of section 3.5 (padding only at the end, pad
 * bits zero) and is the partner of the encoder.
 */
module Base64 {
  import opened Wrappers
  import opened Bytes

  /** The character of a six-bit value in the alphabet of Table 1. */
  function SextetChar(v: nat): (c: char)
    requires v < 64
    ensures c != '='
  {
    if v < 26 then ('A' as int + v) as char
    else if v < 52 then ('a' as int + v - 26) as char
    else if v < 62 then ('0' as int + v - 52) as char
    else if v == 62 then '+'
    else '/'
  }

  /** The six-bit value of an alphabet character; `None` for anything else, the pad included. */
  function SextetValue(c: char): (r: Option<nat>)
    ensures r.Some? ==> r.value < 64
  {
    if 'A' <= c <= 'Z' then Some(c as int - 'A' as int)
    else if 'a' <= c <= 'z' then Some(c as int - 'a' as int + 26)
    else if '0' <= c <= '9' then Some(c as int - '0' as int + 52)
    else if c == '+' then Some(62)
    else if c == '/' then Some(63)
    else None
  }

  lemma SextetRoundTrip(v: nat)
    requires v < 64
    ensures SextetValue(SextetChar(v)) == Some(v)
  {
  }

  predicate IsAlphabet(c: char) {
    SextetValue(c).Some?
  }

  /** The last group for a single remaining byte: two characters and two pads. */
  function Group1(x: Byte): (q: string)
    ensures |q| == 4 && IsAlphabet(q[0]) && IsAlphabet(q[1]) && q[2] == '=' && q[3] == '='
  {
    SextetRoundTrip(x / 4);
    SextetRoundTrip(x % 4 * 16);
    [SextetChar(x / 4), SextetChar(x % 4 * 16), '=', '=']
  }

  /** The last group for two remaining bytes: three characters and one pad. */
  function Group2(x: Byte, y: Byte): (q: string)
    ensures |q| == 4 && IsAlphabet(q[0]) && IsAlphabet(q[1]) && IsAlphabet(q[2]) && q[3] == '='
  {
    SextetRoundTrip(x / 4);
    SextetRoundTrip(x % 4 * 16 + y / 16);
    SextetRoundTrip(y % 16 * 4);
    [SextetChar(x / 4), SextetChar(x % 4 * 16 + y / 16), SextetChar(y % 16 * 4), '=']
  }

  /** Three bytes, 24 bits, as four six-bit characters, most significant first. */
  function Group3(x: Byte, y: Byte, z: Byte): (q: string)
    ensures |q| == 4 && forall i :: 0 <= i < 4 ==> IsAlphabet(q[i])
  {
    SextetRoundTrip(x / 4);
    SextetRoundTrip(x % 4 * 16 + y / 16);
    SextetRoundTrip(y % 16 * 4 + z / 64);
    SextetRoundTrip(z % 64);
    [SextetChar(x / 4), SextetChar(x % 4 * 16 + y / 16), SextetChar(y % 16 * 4 + z / 64), SextetChar(z % 64)]
  }

  /**
   * Three bytes become four characters; a final one or two bytes become
   * two or three characters padded with `=` to four.
   */
  function Encode(b: seq<Byte>): (s: string)
    ensures |s| == 4 * ((|b| + 2) / 3)
  {
    if |b| == 0 then ""
    else if |b| == 1 then Group1(b[0])
    else if |b| == 2 then Group2(b[0], b[1])
    else Group3(b[0], b[1], b[2]) + Encode(b[3..])
  }

  /** The bytes of one group of four characters, padding handled only where it may appear. */
  function DecodeGroup(q: string, last: bool): Option<seq<Byte>>
    requires |q| == 4
  {
    var a, b, c, d := SextetValue(q[0]), SextetValue(q[1]), SextetValue(q[2]), SextetValue(q[3]);
    if a.None? || b.None? then None
    else if last && q[2] == '=' && q[3] == '=' then
      if b.value % 16 == 0 then Some([a.value * 4 + b.value / 16]) else None
    else if c.None? then None
    else if last && q[3] == '=' then
      if c.value % 4 == 0 then Some([a.value * 4 + b.value / 16, b.value % 16 * 16 + c.value / 4]) else None
    else if d.None? then None
    else Some([a.value * 4 + b.value / 16, b.value % 16 * 16 + c.value / 4, c.value % 4 * 64 + d.value])
  }

  /** Strict decoding: `None` unless the text is a sequence of well-formed groups. */
  function Decode(s: string): Option<seq<Byte>>
  {
    if s == [] then Some([])
    else if |s| < 4 then None
    else
      match DecodeGroup(s[..4], |s| == 4)
      case None => None
      case Some(g) =>
        match Decode(s[4..])
        case None => None
        case Some(rest) => Some(g + rest)
  }

  /** The bit fields of three bytes put back together. */
  lemma Recombine(x: Byte, y: Byte, z: Byte)
    ensures x / 4 * 4 + (x % 4 * 16 + y / 16) / 16 == x
    ensures (x % 4 * 16 + y / 16) % 16 * 16 + (y % 16 * 4 + z / 64) / 4 == y
    ensures (y % 16 * 4 + z / 64) % 4 * 64 + z % 64 == z
  {
    assert (x % 4 * 16 + y / 16) / 16 == x % 4 && (x % 4 * 16 + y / 16) % 16 == y / 16;
    assert (y % 16 * 4 + z / 64) / 4 == y % 16 && (y % 16 * 4 + z / 64) % 4 == z / 64;
  }

  /** The last group of one byte decodes back to it. */
  lemma DecodeOne(x: Byte)
    ensures DecodeGroup(Group1(x), true) == Some([x])
  {
    var q := Group1(x);
    SextetRoundTrip(x / 4);
    SextetRoundTrip(x % 4 * 16);
    assert SextetValue(q[0]) == Some(x / 4) && SextetValue(q[1]) == Some(x % 4 * 16);
  }

  /** The last group of two bytes decodes back to them. */
  lemma DecodeTwo(x: Byte, y: Byte)
    ensures DecodeGroup(Group2(x, y), true) == Some([x, y])
  {
    var q := Group2(x, y);
    SextetRoundTrip(x / 4);
    SextetRoundTrip(x % 4 * 16 + y / 16);
    SextetRoundTrip(y % 16 * 4);
    assert SextetValue(q[0]) == Some(x / 4) && SextetValue(q[1]) == Some(x % 4 * 16 + y / 16);
    assert SextetValue(q[2]) == Some(y % 16 * 4);
    Recombine(x, y, 0);
  }

  /** A full group of three bytes decodes back to them, last or not. */
  lemma DecodeThree(x: Byte, y: Byte, z: Byte, last: bool)
    ensures DecodeGroup(Group3(x, y, z), last) == Some([x, y, z])
  {
    var q := Group3(x, y, z);
    var a, b, c, d := x / 4, x % 4 * 16 + y / 16, y % 16 * 4 + z / 64, z % 64;
    SextetRoundTrip(a);
    SextetRoundTrip(b);
    SextetRoundTrip(c);
    SextetRoundTrip(d);
    assert SextetValue(q[0]) == Some(a) && SextetValue(q[1]) == Some(b);
    assert SextetValue(q[2]) == Some(c) && SextetValue(q[3]) == Some(d);
    assert q[2] != '=' && q[3] != '=';
    Recombine(x, y, z);
  }

  /** Decoding a well-formed group followed by more text. */
  lemma DecodeAppend(q: string, t: string, g: seq<Byte>)
    requires |q| == 4 && DecodeGroup(q, t == []) == Some(g)
    ensures Decode(q + t) == match Decode(t) case None => None case Some(r) => Some(g + r)
  {
    var s := q + t;
    assert s[..4] == q && s[4..] == t;
  }

  /** Round trip: decoding undoes encoding. */
  lemma {:induction false} DecodeEncode(b: seq<Byte>)
    ensures Decode(Encode(b)) == Some(b)
  {
    if |b| == 1 {
      DecodeLast1(b);
    } else if |b| == 2 {
      DecodeLast2(b);
    } else if |b| >= 3 {
      assert b == [b[0], b[1], b[2]] + b[3..];
      DecodeEncode(b[3..]);
      DecodeFirst3(b[0], b[1], b[2], b[3..]);
    }
  }

  /** A first group of three bytes decodes back to them, ahead of whatever the rest decodes to. */
  lemma DecodeFirst3(x: Byte, y: Byte, z: Byte, rest: seq<Byte>)
    requires Decode(Encode(rest)) == Some(rest)
    ensures Decode(Encode([x, y, z] + rest)) == Some([x, y, z] + rest)
  {
    var b := [x, y, z] + rest;
    var t := Encode(rest);
    var q := Group3(x, y, z);
    assert b[0] == x && b[1] == y && b[2] == z && b[3..] == rest;
    assert Encode(b) == q + t;
    DecodeThree(x, y, z, t == []);
    DecodeAppend(q, t, [x, y, z]);
  }

  lemma DecodeLast1(b: seq<Byte>)
    requires |b| == 1
    ensures Decode(Encode(b)) == Some(b)
  {
    DecodeOne(b[0]);
    DecodeAppend(Group1(b[0]), "", [b[0]]);
    assert Group1(b[0]) + "" == Encode(b);
    assert Decode("") == Some([]);
    assert [b[0]] + [] == b;
  }

  lemma DecodeLast2(b: seq<Byte>)
    requires |b| == 2
    ensures Decode(Encode(b)) == Some(b)
  {
    DecodeTwo(b[0], b[1]);
    DecodeAppend(Group2(b[0], b[1]), "", [b[0], b[1]]);
    assert Group2(b[0], b[1]) + "" == Encode(b);
    assert Decode("") == Some([]);
    assert [b[0], b[1]] + [] == b;
  }

  /** Every character written is of the alphabet, or a pad in the last two places. */
  lemma {:induction false} EncodeAlphabet(b: seq<Byte>)
    ensures forall i :: 0 <= i < |Encode(b)| ==> IsAlphabet(Encode(b)[i]) || (Encode(b)[i] == '=' && i >= |Encode(b)| - 2)
  {
    if |b| >= 3 {
      EncodeAlphabet(b[3..]);
      var s := Encode(b);
      var q := Group3(b[0], b[1], b[2]);
      assert s == q + Encode(b[3..]);
      forall i | 0 <= i < |s|
        ensures IsAlphabet(s[i]) || (s[i] == '=' && i >= |s| - 2)
      {
        if i >= 4 {
          assert s[i] == Encode(b[3..])[i - 4];
        } else {
          assert s[i] == q[i];
        }
      }
    }
  }
}
