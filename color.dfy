/**
 * The colour utilities of the pass generator (src/lib/utils/color.ts):
 * `#RRGGBB` to the `rgb(r, g, b)` form the wallet format wants and back,
 * the black or white text colour readable on a background, and the
 * channel-inverted complement. Every function is total, as in JavaScript:
 * a malformed argument either throws (an `Err`) or flows through
 * `parseInt` as `NaN`.
 */
module Color {
  import opened Wrappers
  import opened Numerals
  import opened Js

  /** The three exceptions color.ts throws: bad hexadecimal, bad `rgb(...)`, bad background colour. */
  datatype ColorError = InvalidHex | InvalidRgb | InvalidColor

  datatype ColorResult = Ok(value: string) | Err(error: ColorError)

  /** `/^[0-9A-Fa-f]{6}$/.test(h)`. */
  predicate IsSixHexDigits(h: string) {
    |h| == 6 && AllDigitsOf(h, 16)
  }

  /** The value of the k-th two-digit pair (red, green, blue) of six hexadecimal digits. */
  function Channel(h: string, k: nat): (v: nat)
    requires IsSixHexDigits(h) && k < 3
    ensures v < 256
  {
    16 * DigitValue(h[2 * k]) + DigitValue(h[2 * k + 1])
  }

  /** `parseInt(h.substring(2k, 2k + 2), 16)`: the k-th channel as the code reads it, `NaN` included. */
  function ChannelOf(h: string, k: nat): Option<int>
    requires k < 3
  {
    ParseInt(Substring(h, 2 * k, 2 * k + 2), 16)
  }

  /** On six hexadecimal digits the code's reading of a channel is its value. */
  lemma ChannelOfSixHex(h: string, k: nat)
    requires IsSixHexDigits(h) && k < 3
    ensures ChannelOf(h, k) == Some(Channel(h, k))
  {
    var p := h[2 * k..2 * k + 2];
    assert Substring(h, 2 * k, 2 * k + 2) == p;
    assert |p| == 2 && AllDigitsOf(p, 16) && p[0] == h[2 * k] && p[1] == h[2 * k + 1];
    assert ParseInt(p, 16) == Some(ValueOf(p, 16)) by {
      ParseIntOfDigits(p, 16);
    }
    assert ValueOf(p, 16) == Channel(h, k) by {
      ValueOfHexPair(p);
    }
  }

  /** The template `rgb(${r}, ${g}, ${b})`. */
  function RgbText(r: Option<int>, g: Option<int>, b: Option<int>): string {
    "rgb(" + NumberToString(r, 10) + ", " + NumberToString(g, 10) + ", " + NumberToString(b, 10) + ")"
  }

  /** `rgb(r, g, b)` written with the decimal values of three channels. */
  function RgbOfChannels(h: string): string
    requires IsSixHexDigits(h)
  {
    "rgb(" + ToDigits(Channel(h, 0), 10) + ", " + ToDigits(Channel(h, 1), 10) + ", " + ToDigits(Channel(h, 2), 10) + ")"
  }

  /** The decimal numeral `String(v)` of a value the code has read. */
  lemma NumberToStringOfNat(v: Option<int>, c: nat)
    requires v == Some(c)
    ensures NumberToString(v, 10) == ToDigits(c, 10)
  {
  }

  /** On six hexadecimal digits the template names each channel's value in decimal. */
  lemma RgbTextOfSixHex(h: string)
    requires IsSixHexDigits(h)
    ensures RgbText(ChannelOf(h, 0), ChannelOf(h, 1), ChannelOf(h, 2)) == RgbOfChannels(h)
  {
    var r, g, b := ChannelOf(h, 0), ChannelOf(h, 1), ChannelOf(h, 2);
    assert NumberToString(r, 10) == ToDigits(Channel(h, 0), 10) by {
      ChannelOfSixHex(h, 0);
      NumberToStringOfNat(r, Channel(h, 0));
    }
    assert NumberToString(g, 10) == ToDigits(Channel(h, 1), 10) by {
      ChannelOfSixHex(h, 1);
      NumberToStringOfNat(g, Channel(h, 1));
    }
    assert NumberToString(b, 10) == ToDigits(Channel(h, 2), 10) by {
      ChannelOfSixHex(h, 2);
      NumberToStringOfNat(b, Channel(h, 2));
    }
  }

  /** The checks and conversion `hexToRgb` applies to the digits left after the `#` is dropped. */
  function DigitsToRgb(h: string): (r: ColorResult)
    ensures r.Ok? <==> IsSixHexDigits(h)
    ensures r.Err? ==> r.error == InvalidHex
    ensures r.Ok? ==> r.value == RgbOfChannels(h)
  {
    if !IsSixHexDigits(h) then Err(InvalidHex)
    else
      RgbTextOfSixHex(h);
      Ok(RgbText(ChannelOf(h, 0), ChannelOf(h, 1), ChannelOf(h, 2)))
  }

  /**
   * `hexToRgb`: drops the first `#`, wherever it is, and accepts exactly six
   * hexadecimal digits; the result names each pair's value in decimal.
   */
  function HexToRgb(hex: string): (r: ColorResult)
    ensures r.Ok? <==> IsSixHexDigits(RemoveFirst(hex, '#'))
    ensures r.Err? ==> r.error == InvalidHex
    ensures r.Ok? ==> r.value == RgbOfChannels(RemoveFirst(hex, '#'))
  {
    DigitsToRgb(RemoveFirst(hex, '#'))
  }

  /** The first index at or after i that is not white space. */
  function SkipWhitespace(s: string, i: nat): (j: nat)
    requires i <= |s|
    ensures i <= j <= |s|
    ensures forall k :: i <= k < j ==> IsWhitespace(s[k])
    ensures j == |s| || !IsWhitespace(s[j])
    decreases |s| - i
  {
    if i < |s| && IsWhitespace(s[i]) then SkipWhitespace(s, i + 1) else i
  }

  /** The first index at or after i that is not a decimal digit. */
  function SkipDigits(s: string, i: nat): (j: nat)
    requires i <= |s|
    ensures i <= j <= |s|
    ensures forall k :: i <= k < j ==> IsDecimalDigit(s[k])
    ensures j == |s| || !IsDecimalDigit(s[j])
    decreases |s| - i
  {
    if i < |s| && IsDecimalDigit(s[i]) then SkipDigits(s, i + 1) else i
  }

  /** The three decimal groups a match of the `rgb(...)` pattern captures. */
  datatype RgbMatch = RgbMatch(red: string, green: string, blue: string)

  predicate IsNumeral(d: string) {
    |d| > 0 && AllDigitsOf(d, 10)
  }

  /** Where one captured group starts and ends, and where the text after the group's separator starts. */
  datatype Span = Span(start: nat, end: nat, next: nat)

  /** Every character of s[i..j] is white space. */
  predicate AllWhitespace(s: string, i: nat, j: nat)
    requires i <= j <= |s|
  {
    forall k :: i <= k < j ==> IsWhitespace(s[k])
  }

  /**
   * The text of s from i up to g.next is white space, the numeral g captures,
   * white space and the character sep: one way for `\s*(\d+)\s*` followed
   * by sep to match there.
   */
  predicate IsGroupAt(s: string, i: nat, sep: char, g: Span) {
    i <= g.start < g.end < g.next <= |s| &&
    AllWhitespace(s, i, g.start) && IsNumeral(s[g.start..g.end]) &&
    AllWhitespace(s, g.end, g.next - 1) && s[g.next - 1] == sep
  }

  /**
   * `\s*(\d+)\s*` and then the character sep, read from index i. Consecutive
   * tokens come from disjoint character classes, so reading each one
   * greedily is the only way the pattern can match here.
   */
  function Group(s: string, i: nat, sep: char): (r: Option<Span>)
    requires i <= |s|
    ensures r.Some? ==> IsGroupAt(s, i, sep, r.value)
  {
    var a := SkipWhitespace(s, i);
    var b := SkipDigits(s, a);
    var e := SkipWhitespace(s, b);
    if b == a || e == |s| || s[e] != sep then None
    else
      assert AllDigitsOf(s[a..b], 10) by {
        assert forall k :: 0 <= k < b - a ==> s[a..b][k] == s[a + k];
      }
      Some(Span(a, b, e + 1))
  }

  /** The text of a captured group. */
  function Captured(s: string, g: Span): string
    requires g.start <= g.end <= |s|
  {
    s[g.start..g.end]
  }

  /**
   * `rgb(` at index i of s, then the groups red and green each closed by `,`
   * and the group blue closed by `)`, capturing the numerals of m.
   */
  predicate IsRgbWith(s: string, i: nat, red: Span, green: Span, blue: Span, m: RgbMatch) {
    i + 4 <= |s| && s[i..i + 4] == "rgb(" &&
    IsGroupAt(s, i + 4, ',', red) && IsGroupAt(s, red.next, ',', green) && IsGroupAt(s, green.next, ')', blue) &&
    m == RgbMatch(s[red.start..red.end], s[green.start..green.end], s[blue.start..blue.end])
  }

  /** The pattern `rgb\(\s*(\d+)\s*,\s*(\d+)\s*,\s*(\d+)\s*\)` matches at index i of s, capturing the numerals of m. */
  ghost predicate IsRgbAt(s: string, i: nat, m: RgbMatch) {
    exists red: Span, green: Span, blue: Span :: IsRgbWith(s, i, red, green, blue, m)
  }

  /** The match of `rgb\(\s*(\d+)\s*,\s*(\d+)\s*,\s*(\d+)\s*\)` that starts at index i of s. */
  function MatchAt(s: string, i: nat): (r: Option<RgbMatch>)
    requires i <= |s|
    ensures r.Some? ==> IsNumeral(r.value.red) && IsNumeral(r.value.green) && IsNumeral(r.value.blue)
  {
    if !StartsWith(s[i..], "rgb(") then None
    else
      var red := Group(s, i + 4, ',');
      if red.None? then None
      else
        var green := Group(s, red.value.next, ',');
        if green.None? then None
        else
          var blue := Group(s, green.value.next, ')');
          if blue.None? then None
          else Some(RgbMatch(Captured(s, red.value), Captured(s, green.value), Captured(s, blue.value)))
  }

  /** The first index in i..n where f has a result, or n + 1 when there is none: the scan of an unanchored search. */
  function FirstIndex<T>(f: nat -> Option<T>, i: nat, n: nat): (j: nat)
    requires i <= n
    ensures i <= j <= n + 1
    decreases n - i
  {
    if f(i).Some? then i
    else if i == n then n + 1
    else FirstIndex(f, i + 1, n)
  }

  /** The index found is the leftmost one: f has no result before it, and one at it. */
  lemma {:induction false} FirstIndexLeftmost<T>(f: nat -> Option<T>, i: nat, n: nat)
    requires i <= n
    ensures forall k :: i <= k < FirstIndex(f, i, n) ==> f(k).None?
    ensures FirstIndex(f, i, n) <= n ==> f(FirstIndex(f, i, n)).Some?
    decreases n - i
  {
    if f(i).None? && i < n {
      FirstIndexLeftmost(f, i + 1, n);
    }
  }

  /** The leftmost result of f in 0..n. */
  function Leftmost<T>(f: nat -> Option<T>, n: nat): (r: Option<T>)
    ensures r.None? <==> forall j :: 0 <= j <= n ==> f(j).None?
    ensures r.Some? ==> exists j :: 0 <= j <= n && r == f(j) && forall k :: 0 <= k < j ==> f(k).None?
  {
    var j := FirstIndex(f, 0, n);
    FirstIndexLeftmost(f, 0, n);
    if j <= n then f(j) else None
  }

  /** The match at each index of s, and none past its end. */
  function MatchesOf(s: string): nat -> Option<RgbMatch> {
    (k: nat) => if k <= |s| then MatchAt(s, k) else None
  }

  /** `s.match(pattern)` of the unanchored pattern: the leftmost match. */
  function FirstMatch(s: string): (r: Option<RgbMatch>)
    ensures r.None? <==> forall j :: 0 <= j <= |s| ==> MatchAt(s, j).None?
    ensures r.Some? ==> exists j :: 0 <= j <= |s| && r == MatchAt(s, j) && forall k :: 0 <= k < j ==> MatchAt(s, k).None?
  {
    var f := MatchesOf(s);
    assert forall k :: 0 <= k <= |s| ==> f(k) == MatchAt(s, k);
    Leftmost(f, |s|)
  }

  /** `v.toString(16).padStart(2, "0")`. */
  function HexPair(v: Option<int>): (p: string)
    ensures |p| >= 2
  {
    PadStart(NumberToString(v, 16), 2, '0')
  }

  /** A channel value written as two lower-case hexadecimal digits. */
  function TwoDigits(v: nat): (p: string)
    requires v < 256
    ensures |p| == 2
  {
    [DigitChar(v / 16), DigitChar(v % 16)]
  }

  /** The two digits read back as the channel value they write. */
  lemma TwoDigitsValue(v: nat)
    requires v < 256
    ensures AllDigitsOf(TwoDigits(v), 16) && ValueOf(TwoDigits(v), 16) == v
  {
    ValueOfHexPair(TwoDigits(v));
  }

  /** For a value below 256 the padded hexadecimal numeral is its two digits. */
  lemma HexPairOfByte(v: nat)
    requires v < 256
    ensures HexPair(Some(v)) == TwoDigits(v)
  {
    HexDigitsLength(v);
  }

  /** Lower-case hexadecimal digits only, as `toString(16)` writes them. */
  predicate IsLowerHex(s: string) {
    forall k :: 0 <= k < |s| ==> IsHexDigit(s[k]) && !('A' <= s[k] <= 'F')
  }

  /**
   * A non-negative value is padded to at least two lower-case digits that
   * read back as the value; one above 255 needs more than two.
   */
  lemma HexPairOfValue(v: nat)
    ensures |HexPair(Some(v))| >= 2 && IsLowerHex(HexPair(Some(v)))
    ensures AllDigitsOf(HexPair(Some(v)), 16) && ValueOf(HexPair(Some(v)), 16) == v
    ensures |HexPair(Some(v))| == 2 <==> v < 256
  {
    HexDigitsLength(v);
    if v < 256 {
      HexPairOfByte(v);
      TwoDigitsValue(v);
    }
    ToDigitsShape(v, 16);
    var d := ToDigits(v, 16);
    var p := HexPair(Some(v));
    assert p == if |d| >= 2 then d else ['0'] + d;
  }

  lemma LowerHexConcat(x: string, y: string)
    requires IsLowerHex(x) && IsLowerHex(y)
    ensures IsLowerHex(x + y)
  {
    assert forall k :: |x| <= k < |x| + |y| ==> (x + y)[k] == y[k - |x|];
  }

  /** The decimal value of a captured group, as `parseInt(group, 10)` reads it. */
  function GroupValue(d: string): nat
    requires IsNumeral(d)
  {
    ValueOf(d, 10)
  }

  /**
   * `parseInt(group, 10).toString(16).padStart(2, "0")` of one captured group:
   * lower-case hexadecimal digits of the group's decimal value, exactly two
   * of them for a value up to 255.
   */
  function GroupToHex(d: string): (p: string)
    requires IsNumeral(d)
    ensures |p| >= 2 && IsLowerHex(p)
    ensures AllDigitsOf(p, 16) && ValueOf(p, 16) == GroupValue(d)
    ensures |p| == 2 <==> GroupValue(d) < 256
    ensures GroupValue(d) < 256 ==> p == TwoDigits(GroupValue(d))
  {
    ParseIntOfDigits(d, 10);
    HexPairOfValue(GroupValue(d));
    if GroupValue(d) < 256 then HexPairOfByte(GroupValue(d)); HexPair(ParseInt(d, 10))
    else HexPair(ParseInt(d, 10))
  }

  /**
   * `rgbToHex`: throws when the pattern matches nowhere; otherwise `#` and
   * each captured channel in lower-case hexadecimal, padded to two digits
   * and never truncated.
   */
  function RgbToHex(rgb: string): (r: ColorResult)
    ensures r.Err? <==> forall j :: 0 <= j <= |rgb| ==> MatchAt(rgb, j).None?
    ensures r.Err? ==> r.error == InvalidRgb
    ensures r.Ok? ==> |r.value| >= 7 && r.value[0] == '#' && IsLowerHex(r.value[1..])
    ensures FirstMatch(rgb).Some? ==> var m := FirstMatch(rgb).value;
      r.Ok? && r.value == "#" + (GroupToHex(m.red) + GroupToHex(m.green) + GroupToHex(m.blue))
    ensures FirstMatch(rgb).Some? ==> var m := FirstMatch(rgb).value;
      GroupValue(m.red) < 256 && GroupValue(m.green) < 256 && GroupValue(m.blue) < 256 ==>
        r.value == "#" + (TwoDigits(GroupValue(m.red)) + TwoDigits(GroupValue(m.green)) + TwoDigits(GroupValue(m.blue)))
  {
    match FirstMatch(rgb)
    case None => Err(InvalidRgb)
    case Some(m) =>
      var x, y, z := GroupToHex(m.red), GroupToHex(m.green), GroupToHex(m.blue);
      LowerHexConcat(x, y);
      LowerHexConcat(x + y, z);
      assert ("#" + (x + y + z))[1..] == x + y + z;
      Ok("#" + (x + y + z))
  }

  /** The result has the length 7 of `#rrggbb` exactly when every captured channel is at most 255. */
  lemma RgbToHexLength(rgb: string)
    requires FirstMatch(rgb).Some?
    ensures var m := FirstMatch(rgb).value;
      RgbToHex(rgb).Ok? && (|RgbToHex(rgb).value| == 7 <==>
        GroupValue(m.red) < 256 && GroupValue(m.green) < 256 && GroupValue(m.blue) < 256)
  {
  }

  /** Luminance above one half: (299 R + 587 G + 114 B) / 255000 > 1/2 on exact values; any `NaN` compares false. */
  predicate IsLight(r: Option<int>, g: Option<int>, b: Option<int>) {
    r.Some? && g.Some? && b.Some? && 299 * r.value + 587 * g.value + 114 * b.value > 127500
  }

  /** The ternary `luminance > 0.5 ? "#000000" : "#FFFFFF"`. */
  function Readable(r: Option<int>, g: Option<int>, b: Option<int>): string {
    if IsLight(r, g, b) then "#000000" else "#FFFFFF"
  }

  /** The text colour for the digits after the `#` of a hexadecimal background, read without any check. */
  function ReadableOfHex(h: string): (r: string)
    ensures r == "#000000" || r == "#FFFFFF"
  {
    Readable(ChannelOf(h, 0), ChannelOf(h, 1), ChannelOf(h, 2))
  }

  /** The text colour for the three groups the `rgb(...)` pattern captured. */
  function ReadableOfMatch(m: RgbMatch): (r: string)
    ensures r == "#000000" || r == "#FFFFFF"
  {
    Readable(ParseInt(m.red, 10), ParseInt(m.green, 10), ParseInt(m.blue, 10))
  }

  /**
   * `getTextColorForBackground`: a background starting with `#` is read as
   * hexadecimal without any check; any other is searched for the `rgb(...)`
   * pattern and throws when it has none. Only black or white comes out.
   */
  function TextColorForBackground(bg: string): (r: ColorResult)
    ensures r.Ok? ==> r.value == "#000000" || r.value == "#FFFFFF"
    ensures r.Err? <==> !StartsWith(bg, "#") && forall j :: 0 <= j <= |bg| ==> MatchAt(bg, j).None?
    ensures r.Err? ==> r.error == InvalidColor
  {
    if StartsWith(bg, "#") then Ok(ReadableOfHex(RemoveFirst(bg, '#')))
    else
      match FirstMatch(bg)
      case None => Err(InvalidColor)
      case Some(m) => Ok(ReadableOfMatch(m))
  }

  /** `255 - v`, where `255 - NaN` is `NaN`. */
  function Invert(v: Option<int>): Option<int> {
    match v
    case None => None
    case Some(x) => Some(255 - x)
  }

  /** `(255 - c).toString(16).padStart(2, "0")` of the k-th channel as the code reads it. */
  function InvertedPair(h: string, k: nat): string
    requires k < 3
  {
    HexPair(Invert(ChannelOf(h, k)))
  }

  lemma InvertedPairOfSixHex(h: string, k: nat)
    requires IsSixHexDigits(h) && k < 3
    ensures InvertedPair(h, k) == TwoDigits(255 - Channel(h, k))
  {
    var c := Channel(h, k);
    var v := ChannelOf(h, k);
    ChannelOfSixHex(h, k);
    assert v == Some(c);
    InvertSome(v, c);
    HexPairOfByte(255 - c);
  }

  lemma InvertSome(v: Option<int>, c: int)
    requires v == Some(c)
    ensures Invert(v) == Some(255 - c)
  {
  }

  /** The template `#${compR}${compG}${compB}` over the digits left after the `#` is dropped. */
  function InvertedChannels(h: string): (r: string)
    ensures |r| >= 7 && r[0] == '#'
  {
    var a, b, c := InvertedPair(h, 0), InvertedPair(h, 1), InvertedPair(h, 2);
    "#" + (a + b + c)
  }

  /**
   * `getComplementaryColor`: drops the first `#` and writes `255 - c` for
   * each channel as the code reads it, unchecked.
   */
  function ComplementaryColor(hex: string): (r: string)
    ensures |r| >= 7 && r[0] == '#'
  {
    InvertedChannels(RemoveFirst(hex, '#'))
  }

  /** On six hexadecimal digits the complement is `#` and the three inverted channels as lower-case pairs. */
  lemma InvertedChannelsOfSixHex(h: string)
    requires IsSixHexDigits(h)
    ensures InvertedChannels(h) == "#" + (TwoDigits(255 - Channel(h, 0)) + TwoDigits(255 - Channel(h, 1)) + TwoDigits(255 - Channel(h, 2)))
  {
    var a, b, c := InvertedPair(h, 0), InvertedPair(h, 1), InvertedPair(h, 2);
    var a', b', c' := TwoDigits(255 - Channel(h, 0)), TwoDigits(255 - Channel(h, 1)), TwoDigits(255 - Channel(h, 2));
    InvertedPairOfSixHex(h, 0);
    InvertedPairOfSixHex(h, 1);
    InvertedPairOfSixHex(h, 2);
    assert a == a' && b == b' && c == c';
  }
}
