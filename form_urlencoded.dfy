/**
 * The application/x-www-form-urlencoded format of the WHATWG URL Standard
 * (section 5): the serializer `URLSearchParams.toString()` applies to its
 * list of name-value pairs, and the parser `new URLSearchParams(text)`
 * applies to a query, which is the serializer's partner.
 */
module FormUrlencoded {
  import opened Wrappers
  import opened Numerals
  import opened Bytes
  import opened Js
  import Utf8

  /** The bytes the byte serializer leaves as they are: `*`, `-`, `.`, digits, letters and `_`. */
  predicate IsUnescaped(b: Byte) {
    b == 0x2A || b == 0x2D || b == 0x2E || 0x30 <= b <= 0x39 || 0x41 <= b <= 0x5A || b == 0x5F || 0x61 <= b <= 0x7A
  }

  /** An upper-case hexadecimal digit, as percent-encoding writes it. */
  function UpperHexDigit(d: nat): (c: char)
    requires d < 16
    ensures IsHexDigit(c) && DigitValue(c) == d && c as int < 0x80
  {
    if d < 10 then ('0' as int + d) as char else ('A' as int + d - 10) as char
  }

  /** The byte serializer on one byte: space as `+`, the unescaped bytes as themselves, the rest as `%XX`. */
  function SerializeByte(b: Byte): (s: string)
    ensures 1 <= |s| <= 3 && Utf8.IsAscii(s)
    ensures '&' !in s && '=' !in s
  {
    if b == 0x20 then "+"
    else if IsUnescaped(b) then [b as char]
    else ['%', UpperHexDigit(b / 16), UpperHexDigit(b % 16)]
  }

  function SerializeBytes(bs: seq<Byte>): (s: string)
    ensures Utf8.IsAscii(s)
    ensures '&' !in s && '=' !in s
  {
    if bs == [] then "" else SerializeByte(bs[0]) + SerializeBytes(bs[1..])
  }

  /** A name or a value: UTF-8 encoded, then byte-serialized. */
  function SerializeComponent(s: string): (r: string)
    ensures Utf8.IsAscii(r)
    ensures '&' !in r && '=' !in r
  {
    SerializeBytes(Utf8.Encode(s))
  }

  function SerializePair(p: (string, string)): string {
    SerializeComponent(p.0) + "=" + SerializeComponent(p.1)
  }

  function SerializePairs(list: seq<(string, string)>): (r: seq<string>)
    ensures |r| == |list|
  {
    if list == [] then [] else [SerializePair(list[0])] + SerializePairs(list[1..])
  }

  /** The serializer: every pair as `name=value`, the pairs separated by `&`. */
  function Serialize(list: seq<(string, string)>): string {
    Join(SerializePairs(list), "&")
  }

  predicate IsHexByte(b: Byte) {
    IsHexDigit(b as char)
  }

  /**
   * The parser's decoding of one name or value, on its bytes: `+` becomes a
   * space and `%` followed by two hexadecimal digits becomes the byte they
   * spell; anything else, a `%` without two digits included, stays. Doing the
   * `+` replacement in the same pass is the same as doing it first, since it
   * neither makes nor breaks a `%XX`.
   */
  function PercentDecode(bs: seq<Byte>): seq<Byte> {
    if bs == [] then []
    else if bs[0] == 0x2B then [0x20] + PercentDecode(bs[1..])
    else if bs[0] == 0x25 && |bs| >= 3 && IsHexByte(bs[1]) && IsHexByte(bs[2]) then
      [16 * DigitValue(bs[1] as char) + DigitValue(bs[2] as char)] + PercentDecode(bs[3..])
    else [bs[0]] + PercentDecode(bs[1..])
  }

  /** A name or value as the parser reads it: bytes, percent-decoded, then UTF-8 decoded. */
  function DecodeComponent(s: string): Option<string> {
    Utf8.Decode(PercentDecode(Utf8.Encode(s)))
  }

  /** The text before the first c and the text after it; all of s and "" without a c. */
  function SplitAtFirst(s: string, c: char): (string, string) {
    if s == [] then ("", "")
    else if s[0] == c then ("", s[1..])
    else
      var rest := SplitAtFirst(s[1..], c);
      ([s[0]] + rest.0, rest.1)
  }

  /** The pairs of the `&`-separated pieces, empty pieces skipped. */
  function ParsePieces(pieces: seq<string>): Option<seq<(string, string)>> {
    if pieces == [] then Some([])
    else
      match ParsePieces(pieces[1..])
      case None => None
      case Some(rest) =>
        if pieces[0] == "" then Some(rest)
        else
          var (name, value) := SplitAtFirst(pieces[0], '=');
          match (DecodeComponent(name), DecodeComponent(value))
          case (Some(n), Some(v)) => Some([(n, v)] + rest)
          case _ => None
  }

  /** The parser. Ill-formed UTF-8 after percent-decoding makes it `None`. */
  function Parse(s: string): Option<seq<(string, string)>> {
    ParsePieces(Split(s, '&'))
  }

  /** Percent-decoding the stored bytes of one serialized byte gives that byte back. */
  lemma DecodeSerializedByte(b: Byte, rest: seq<Byte>)
    ensures PercentDecode(Utf8.Encode(SerializeByte(b)) + rest) == [b] + PercentDecode(rest)
  {
    var s := SerializeByte(b);
    Utf8.EncodeAscii(s);
    var e := Utf8.Encode(s);
    var bs := e + rest;
    if b == 0x20 {
      assert bs[0] == 0x2B && bs[1..] == rest;
    } else if IsUnescaped(b) {
      assert bs[0] == b && bs[1..] == rest;
    } else {
      assert bs[0] == 0x25 && bs[1] as char == s[1] && bs[2] as char == s[2];
      assert bs[3..] == rest;
    }
  }

  /** Percent-decoding undoes the byte serializer. */
  lemma {:induction false} DecodeSerializedBytes(bs: seq<Byte>)
    ensures PercentDecode(Utf8.Encode(SerializeBytes(bs))) == bs
  {
    if bs != [] {
      var head, tail := SerializeByte(bs[0]), SerializeBytes(bs[1..]);
      Utf8.EncodeConcat(head, tail);
      DecodeSerializedByte(bs[0], Utf8.Encode(tail));
      DecodeSerializedBytes(bs[1..]);
      assert [bs[0]] + bs[1..] == bs;
    } else {
      assert Utf8.Encode("") == [];
    }
  }

  /** Round trip of one name or value. */
  lemma DecodeComponentOfSerialized(s: string)
    ensures DecodeComponent(SerializeComponent(s)) == Some(s)
  {
    DecodeSerializedBytes(Utf8.Encode(s));
    Utf8.DecodeEncode(s);
  }

  /** Only the first c splits. */
  lemma {:induction false} SplitAtFirstAfter(a: string, c: char, b: string)
    requires c !in a
    ensures SplitAtFirst(a + [c] + b, c) == (a, b)
  {
    if a == [] {
      assert a + [c] + b == [c] + b;
    } else {
      SplitAtFirstAfter(a[1..], c, b);
      assert (a + [c] + b)[1..] == a[1..] + [c] + b;
      assert [a[0]] + a[1..] == a;
    }
  }

  /** No serialized pair contains the pair separator. */
  lemma {:induction false} SerializedPairsFree(list: seq<(string, string)>)
    ensures forall i :: 0 <= i < |list| ==> '&' !in SerializePairs(list)[i]
  {
    if list != [] {
      SerializedPairsFree(list[1..]);
      var head := SerializeComponent(list[0].0) + "=" + SerializeComponent(list[0].1);
      assert '&' !in head;
      assert forall i :: 1 <= i < |list| ==> SerializePairs(list)[i] == SerializePairs(list[1..])[i - 1];
    }
  }

  /** The parser recovers the pairs from their serialized pieces. */
  lemma {:induction false} ParsePiecesOfSerialized(list: seq<(string, string)>)
    ensures ParsePieces(SerializePairs(list)) == Some(list)
  {
    if list != [] {
      var pieces := SerializePairs(list);
      var n, v := SerializeComponent(list[0].0), SerializeComponent(list[0].1);
      assert pieces[0] == n + "=" + v && pieces[1..] == SerializePairs(list[1..]);
      ParsePiecesOfSerialized(list[1..]);
      assert pieces[0] != "" by {
        assert |pieces[0]| >= 1;
      }
      SplitAtFirstAfter(n, '=', v);
      assert n + "=" + v == n + ['='] + v;
      DecodeComponentOfSerialized(list[0].0);
      DecodeComponentOfSerialized(list[0].1);
      assert [(list[0].0, list[0].1)] + list[1..] == list;
    }
  }

  /** Round trip: parsing a serialized list gives back the same pairs, in the same order. */
  lemma ParseSerialize(list: seq<(string, string)>)
    ensures Parse(Serialize(list)) == Some(list)
  {
    if list == [] {
      assert Split("", '&') == [""];
      assert ParsePieces([""]) == ParsePieces([]);
    } else {
      SerializedPairsFree(list);
      SplitJoin(SerializePairs(list), '&');
      ParsePiecesOfSerialized(list);
    }
  }

  /** A `URLSearchParams` object: its list of name-value pairs, in insertion order. */
  class SearchParams {
    var list: seq<(string, string)>

    /** `new URLSearchParams()`: the empty list. */
    constructor ()
      ensures list == []
    {
      list := [];
    }

    /** `append(name, value)`: the pair goes at the end, whatever is already there. */
    method Append(name: string, value: string)
      modifies this
      ensures list == old(list) + [(name, value)]
    {
      list := list + [(name, value)];
    }

    /** `toString()`: the serialized list. */
    function ToString(): string
      reads this
    {
      Serialize(list)
    }
  }
}
