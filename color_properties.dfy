/**
 * What color.ts promises, proved about the model: the worked examples,
 * the hex/rgb round trip, the luminance rule, that the hexadecimal and
 * `rgb(...)` spellings of one colour get the same text colour, and that
 * the complement is an involution up to letter case.
 */
module ColorProperties {
  import opened Wrappers
  import opened Numerals
  import opened Js
  import opened Color

  /** `hexToRgb("#FF0000")` is `rgb(255, 0, 0)`. */
  lemma HexToRgbOfRed(hex: string)
    requires hex == "#FF0000"
    ensures HexToRgb(hex) == Ok("rgb(255, 0, 0)")
  {
    var h := "FF0000";
    assert RemoveFirst(hex, '#') == h by {
      HashTail(h);
    }
    assert IsSixHexDigits(h);
    var r, z := ToDigits(255, 10), ToDigits(0, 10);
    assert r == "255" && z == "0" by {
      assert ToDigits(2, 10) == "2";
      assert ToDigits(25, 10) == "25";
    }
    assert RgbOfChannels(h) == RgbOf(r, z, z) by {
      assert Channel(h, 0) == 255 && Channel(h, 1) == 0 && Channel(h, 2) == 0;
    }
    RedText(r, z);
  }

  lemma RedText(r: string, z: string)
    requires r == "255" && z == "0"
    ensures RgbOf(r, z, z) == "rgb(255, 0, 0)"
  {
  }

  /** A string that is not six hexadecimal digits after its first `#` is refused. */
  lemma HexToRgbRejectsWord(hex: string)
    requires hex == "not-a-color"
    ensures HexToRgb(hex) == Err(InvalidHex)
  {
    assert |RemoveFirst(hex, '#')| >= 10;
  }

  /** Only the first `#` is dropped, wherever it stands: one inside the digits is accepted, a second leading one is not. */
  lemma HexToRgbDropsFirstHash(inner: string, leading: string, twice: string)
    requires inner == "12#3456" && leading == "#123456" && twice == "##123456"
    ensures HexToRgb(inner) == HexToRgb(leading)
    ensures HexToRgb(twice) == Err(InvalidHex)
  {
    var d := "123456";
    assert RemoveFirst(inner, '#') == d by {
      assert inner == "12" + ['#'] + "3456";
      RemoveFirstAfter("12", '#', "3456");
    }
    assert RemoveFirst(leading, '#') == d by {
      HashTail(d);
    }
    assert RemoveFirst(twice, '#') == leading by {
      HashTail(leading);
    }
    assert !IsSixHexDigits(leading);
  }

  /** A run of characters of one class that ends at a character outside it is skipped in one step. */
  lemma {:induction false} SkipDigitsRun(s: string, i: nat, j: nat)
    requires i <= j <= |s|
    requires forall k :: i <= k < j ==> IsDecimalDigit(s[k])
    requires j == |s| || !IsDecimalDigit(s[j])
    ensures SkipDigits(s, i) == j
    decreases j - i
  {
    if i < j {
      SkipDigitsRun(s, i + 1, j);
    }
  }

  /** A run of white space that ends at a character outside it is skipped in one step. */
  lemma {:induction false} SkipWhitespaceRun(s: string, i: nat, j: nat)
    requires i <= j <= |s|
    requires AllWhitespace(s, i, j)
    requires j == |s| || !IsWhitespace(s[j])
    ensures SkipWhitespace(s, i) == j
    decreases j - i
  {
    if i < j {
      SkipWhitespaceRun(s, i + 1, j);
    }
  }

  /**
   * `\s*(\d+)\s*` and a separator that is neither a digit nor white space
   * match at i exactly where Group finds them: the spans agree both ways.
   */
  lemma GroupIsGroupAt(s: string, i: nat, sep: char, g: Span)
    requires i <= |s| && !IsDecimalDigit(sep) && !IsWhitespace(sep)
    ensures Group(s, i, sep) == Some(g) <==> IsGroupAt(s, i, sep, g)
  {
    if IsGroupAt(s, i, sep, g) {
      GroupAtIsGroup(s, i, sep, g);
    }
  }

  /** A group laid out at i is the one Group reads there. */
  lemma GroupAtIsGroup(s: string, i: nat, sep: char, g: Span)
    requires i <= |s| && !IsDecimalDigit(sep) && !IsWhitespace(sep)
    requires IsGroupAt(s, i, sep, g)
    ensures Group(s, i, sep) == Some(g)
  {
    assert forall k :: g.start <= k < g.end ==> IsDecimalDigit(s[k]) by {
      assert forall k :: g.start <= k < g.end ==> s[k] == s[g.start..g.end][k - g.start];
    }
    SkipWhitespaceRun(s, i, g.start);
    SkipDigitsRun(s, g.start, g.end);
    SkipWhitespaceRun(s, g.end, g.next - 1);
  }

  /** `rgb(` at i is the four characters from i. */
  lemma StartsWithAt(s: string, i: nat)
    requires i <= |s|
    ensures StartsWith(s[i..], "rgb(") <==> i + 4 <= |s| && s[i..i + 4] == "rgb("
  {
    if i + 4 <= |s| {
      assert s[i..][..4] == s[i..i + 4];
    }
  }

  /** The pattern matches at i with the captures of m exactly when MatchAt finds m there. */
  lemma MatchAtIsRgbAt(s: string, i: nat, m: RgbMatch)
    requires i <= |s|
    ensures MatchAt(s, i) == Some(m) <==> IsRgbAt(s, i, m)
  {
    if MatchAt(s, i) == Some(m) {
      MatchIsRgbAt(s, i, m);
    }
    if IsRgbAt(s, i, m) {
      RgbAtIsMatch(s, i, m);
    }
  }

  /** What MatchAt finds is a match of the pattern. */
  lemma MatchIsRgbAt(s: string, i: nat, m: RgbMatch)
    requires i <= |s| && MatchAt(s, i) == Some(m)
    ensures IsRgbAt(s, i, m)
  {
    StartsWithAt(s, i);
    var red := Group(s, i + 4, ',').value;
    var green := Group(s, red.next, ',').value;
    var blue := Group(s, green.next, ')').value;
    assert IsRgbWith(s, i, red, green, blue, m);
  }

  /** Every match of the pattern is found by MatchAt. */
  lemma RgbAtIsMatch(s: string, i: nat, m: RgbMatch)
    requires i <= |s| && IsRgbAt(s, i, m)
    ensures MatchAt(s, i) == Some(m)
  {
    var red: Span, green: Span, blue: Span :| IsRgbWith(s, i, red, green, blue, m);
    RgbWithIsMatch(s, i, red, green, blue, m);
  }

  /** The three groups of a match, read one after the other, are what MatchAt captures. */
  lemma RgbWithIsMatch(s: string, i: nat, red: Span, green: Span, blue: Span, m: RgbMatch)
    requires i <= |s| && IsRgbWith(s, i, red, green, blue, m)
    ensures MatchAt(s, i) == Some(m)
  {
    StartsWithAt(s, i);
    GroupIsGroupAt(s, i + 4, ',', red);
    GroupIsGroupAt(s, red.next, ',', green);
    GroupIsGroupAt(s, green.next, ')', blue);
  }

  /** At most one white-space character before a non-white-space one is skipped. */
  lemma SkipOneSpace(s: string, i: nat, n: nat)
    requires n <= 1 && i + n < |s|
    requires n == 1 ==> s[i] == ' '
    requires !IsWhitespace(s[i + n])
    ensures SkipWhitespace(s, i) == i + n
  {
  }

  /** The text `rgb(x, y, z)` of three numerals. */
  function RgbOf(x: string, y: string, z: string): string {
    "rgb(" + x + ", " + y + ", " + z + ")"
  }

  /** Where the pieces of `rgb(x, y, z)` stand. */
  lemma RgbOfLayout(x: string, y: string, z: string)
    ensures var s := RgbOf(x, y, z);
      var b := 4 + |x|; var d := b + 2 + |y|; var f := d + 2 + |z|;
      |s| == f + 1 && s[..4] == "rgb(" &&
      s[b] == ',' && s[b + 1] == ' ' && s[d] == ',' && s[d + 1] == ' ' && s[f] == ')' &&
      s[4..b] == x && s[b + 2..d] == y && s[d + 2..f] == z
  {
  }

  /** A numeral at i + n..j of s, after n <= 1 spaces and before the character sep, is one group of the pattern. */
  lemma GroupAt(s: string, i: nat, n: nat, j: nat, sep: char)
    requires n <= 1 && i + n < j < |s| && (n == 1 ==> s[i] == ' ')
    requires IsNumeral(s[i + n..j])
    requires s[j] == sep && !IsDecimalDigit(sep) && !IsWhitespace(sep)
    ensures Group(s, i, sep) == Some(Span(i + n, j, j + 1))
  {
    assert forall k :: i + n <= k < j ==> IsDecimalDigit(s[k]) by {
      assert forall k :: i + n <= k < j ==> s[k] == s[i + n..j][k - (i + n)];
    }
    SkipOneSpace(s, i, n);
    SkipDigitsRun(s, i + n, j);
    SkipOneSpace(s, j, 0);
  }

  /** The pattern finds three numerals laid out as in `rgb(x, y, z)` at the start of s. */
  lemma MatchOfLayout(s: string, b: nat, d: nat, f: nat, m: RgbMatch)
    requires 4 < b && b + 2 < d && d + 2 < f && |s| == f + 1 && s[..4] == "rgb("
    requires s[b] == ',' && s[b + 1] == ' ' && s[d] == ',' && s[d + 1] == ' ' && s[f] == ')'
    requires m == RgbMatch(s[4..b], s[b + 2..d], s[d + 2..f])
    requires IsNumeral(m.red) && IsNumeral(m.green) && IsNumeral(m.blue)
    ensures FirstMatch(s) == Some(m)
  {
    GroupsOfLayout(s, b, d, f);
    MatchOfGroups(s, Span(4, b, b + 1), Span(b + 2, d, d + 1), Span(d + 2, f, f + 1));
    FirstMatchAtStart(s, m);
  }

  /** The three groups of the layout, each read at its place. */
  lemma GroupsOfLayout(s: string, b: nat, d: nat, f: nat)
    requires 4 < b && b + 2 < d && d + 2 < f && |s| == f + 1 && s[..4] == "rgb("
    requires s[b] == ',' && s[b + 1] == ' ' && s[d] == ',' && s[d + 1] == ' ' && s[f] == ')'
    requires IsNumeral(s[4..b]) && IsNumeral(s[b + 2..d]) && IsNumeral(s[d + 2..f])
    ensures StartsWith(s[0..], "rgb(")
    ensures Group(s, 4, ',') == Some(Span(4, b, b + 1))
    ensures Group(s, b + 1, ',') == Some(Span(b + 2, d, d + 1))
    ensures Group(s, d + 1, ')') == Some(Span(d + 2, f, f + 1))
  {
    assert Group(s, 4, ',') == Some(Span(4, b, b + 1)) by {
      GroupAt(s, 4, 0, b, ',');
    }
    assert Group(s, b + 1, ',') == Some(Span(b + 2, d, d + 1)) by {
      GroupAt(s, b + 1, 1, d, ',');
    }
    assert Group(s, d + 1, ')') == Some(Span(d + 2, f, f + 1)) by {
      GroupAt(s, d + 1, 1, f, ')');
    }
    assert s[0..] == s;
  }

  /** Three groups read one after the other behind `rgb(` make a match at the start. */
  lemma MatchOfGroups(s: string, red: Span, green: Span, blue: Span)
    requires StartsWith(s[0..], "rgb(") && 4 <= |s|
    requires Group(s, 4, ',') == Some(red)
    requires red.next <= |s| && Group(s, red.next, ',') == Some(green)
    requires green.next <= |s| && Group(s, green.next, ')') == Some(blue)
    requires blue.start <= blue.end <= |s|
    ensures MatchAt(s, 0) == Some(RgbMatch(Captured(s, red), Captured(s, green), Captured(s, blue)))
  {
  }

  /** A match at the very start is the leftmost one. */
  lemma FirstMatchAtStart(s: string, m: RgbMatch)
    requires MatchAt(s, 0) == Some(m)
    ensures FirstMatch(s) == Some(m)
  {
    assert FirstIndex(MatchesOf(s), 0, |s|) == 0;
  }

  /** The pattern finds the three numerals of `rgb(x, y, z)` at its very start. */
  lemma MatchRgbOf(x: string, y: string, z: string)
    requires IsNumeral(x) && IsNumeral(y) && IsNumeral(z)
    ensures FirstMatch(RgbOf(x, y, z)) == Some(RgbMatch(x, y, z))
  {
    var b := 4 + |x|;
    var d := b + 2 + |y|;
    var f := d + 2 + |z|;
    RgbOfLayout(x, y, z);
    MatchOfLayout(RgbOf(x, y, z), b, d, f, RgbMatch(x, y, z));
  }

  /** White space around a group is skipped: `rgb( 10 ,20,30 )` becomes `#0a141e`. */
  lemma RgbToHexOfSpacedText(s: string)
    requires s == "rgb( 10 ,20,30 )"
    ensures RgbToHex(s) == Ok("#0a141e")
  {
    SpacedTextMatch(s);
    RgbToHexOfTens(s, RgbMatch("10", "20", "30"));
  }

  /** The pattern finds `10`, `20` and `30` in `rgb( 10 ,20,30 )`. */
  lemma SpacedTextMatch(s: string)
    requires s == "rgb( 10 ,20,30 )"
    ensures FirstMatch(s) == Some(RgbMatch("10", "20", "30"))
  {
    var m := RgbMatch("10", "20", "30");
    assert IsRgbWith(s, 0, Span(5, 7, 9), Span(9, 11, 12), Span(12, 14, 16), m);
    RgbWithIsMatch(s, 0, Span(5, 7, 9), Span(9, 11, 12), Span(12, 14, 16), m);
    FirstMatchAtStart(s, m);
  }

  /** The channels 10, 20 and 30 are written `#0a141e`. */
  lemma RgbToHexOfTens(s: string, m: RgbMatch)
    requires m == RgbMatch("10", "20", "30") && FirstMatch(s) == Some(m)
    ensures RgbToHex(s) == Ok("#0a141e")
  {
    TensValues(m);
    TensHex();
  }

  /** The decimal values of `10`, `20` and `30`. */
  lemma TensValues(m: RgbMatch)
    requires m == RgbMatch("10", "20", "30")
    ensures IsNumeral(m.red) && IsNumeral(m.green) && IsNumeral(m.blue)
    ensures GroupValue(m.red) == 10 && GroupValue(m.green) == 20 && GroupValue(m.blue) == 30
  {
    DecimalPairValue(m.red);
    DecimalPairValue(m.green);
    DecimalPairValue(m.blue);
  }

  /** 10, 20 and 30 in two hexadecimal digits each. */
  lemma TensHex()
    ensures "#" + (TwoDigits(10) + TwoDigits(20) + TwoDigits(30)) == "#0a141e"
  {
    var x, y, z := TwoDigits(10), TwoDigits(20), TwoDigits(30);
    assert x == [DigitChar(0), DigitChar(10)];
    assert y == [DigitChar(1), DigitChar(4)];
    assert z == [DigitChar(1), DigitChar(14)];
    HashPairs(x, y, z);
    assert DigitChar(0) == '0' && DigitChar(10) == 'a' && DigitChar(1) == '1';
    assert DigitChar(4) == '4' && DigitChar(14) == 'e';
  }

  /** `#` and three pairs of characters, spelt out. */
  lemma HashPairs(x: string, y: string, z: string)
    requires |x| == 2 && |y| == 2 && |z| == 2
    ensures "#" + (x + y + z) == ['#', x[0], x[1], y[0], y[1], z[0], z[1]]
  {
  }

  /** Two decimal digits have the value 10 a + b. */
  lemma DecimalPairValue(d: string)
    requires |d| == 2 && IsNumeral(d)
    ensures GroupValue(d) == 10 * DigitValue(d[0]) + DigitValue(d[1])
  {
    assert d[..1][..0] == [];
    assert ValueOf(d[..1], 10) == DigitValue(d[0]);
  }

  /** The decimal numeral of a channel, as `${r}` writes it. */
  lemma DecimalOfChannel(h: string, k: nat)
    requires IsSixHexDigits(h) && k < 3
    ensures IsNumeral(ToDigits(Channel(h, k), 10))
    ensures GroupValue(ToDigits(Channel(h, k), 10)) == Channel(h, k)
    ensures ParseInt(ToDigits(Channel(h, k), 10), 10) == Some(Channel(h, k))
  {
    ParseIntOfDigits(ToDigits(Channel(h, k), 10), 10);
  }

  /** `hexToRgb` of valid input is found again by the `rgb(...)` pattern, channel by channel. */
  lemma MatchHexToRgb(hex: string)
    requires IsSixHexDigits(RemoveFirst(hex, '#'))
    ensures var h := RemoveFirst(hex, '#');
      HexToRgb(hex).Ok? &&
      FirstMatch(HexToRgb(hex).value) == Some(RgbMatch(ToDigits(Channel(h, 0), 10), ToDigits(Channel(h, 1), 10), ToDigits(Channel(h, 2), 10)))
  {
    var h := RemoveFirst(hex, '#');
    var x, y, z := ToDigits(Channel(h, 0), 10), ToDigits(Channel(h, 1), 10), ToDigits(Channel(h, 2), 10);
    assert HexToRgb(hex).value == RgbOfChannels(h) == RgbOf(x, y, z);
    MatchRgbOf(x, y, z);
  }

  /** A channel written as two lower-case digits is the lower-cased pair it was read from. */
  lemma TwoDigitsOfChannel(h: string, k: nat)
    requires IsSixHexDigits(h) && k < 3
    ensures TwoDigits(Channel(h, k)) == [ToLowerAscii(h[2 * k]), ToLowerAscii(h[2 * k + 1])]
  {
    var a, b := DigitValue(h[2 * k]), DigitValue(h[2 * k + 1]);
    assert (16 * a + b) / 16 == a && (16 * a + b) % 16 == b;
  }

  /** Six lower-cased digits are the three lower-cased pairs. */
  lemma LowerAsciiOfSixHex(h: string)
    requires IsSixHexDigits(h)
    ensures LowerAscii(h) == TwoDigits(Channel(h, 0)) + TwoDigits(Channel(h, 1)) + TwoDigits(Channel(h, 2))
  {
    var t := TwoDigits(Channel(h, 0)) + TwoDigits(Channel(h, 1)) + TwoDigits(Channel(h, 2));
    TwoDigitsOfChannel(h, 0);
    TwoDigitsOfChannel(h, 1);
    TwoDigitsOfChannel(h, 2);
    assert forall i :: 0 <= i < 6 ==> t[i] == ToLowerAscii(h[i]);
  }

  /** Round trip: `rgbToHex(hexToRgb(h))` is `#` and the six digits of h in lower case. */
  lemma {:induction false} RgbToHexOfHexToRgb(hex: string)
    requires IsSixHexDigits(RemoveFirst(hex, '#'))
    ensures HexToRgb(hex).Ok?
    ensures RgbToHex(HexToRgb(hex).value) == Ok("#" + LowerAscii(RemoveFirst(hex, '#')))
  {
    var h := RemoveFirst(hex, '#');
    MatchHexToRgb(hex);
    var x, y, z := ToDigits(Channel(h, 0), 10), ToDigits(Channel(h, 1), 10), ToDigits(Channel(h, 2), 10);
    DecimalOfChannel(h, 0);
    DecimalOfChannel(h, 1);
    DecimalOfChannel(h, 2);
    HexPairOfByte(Channel(h, 0));
    HexPairOfByte(Channel(h, 1));
    HexPairOfByte(Channel(h, 2));
    assert GroupToHex(x) == TwoDigits(Channel(h, 0));
    assert GroupToHex(y) == TwoDigits(Channel(h, 1));
    assert GroupToHex(z) == TwoDigits(Channel(h, 2));
    LowerAsciiOfSixHex(h);
  }

  /** `#` followed by six digits: the hexadecimal branch of the text-colour choice. */
  lemma HashDigits(d: string)
    requires IsSixHexDigits(d)
    ensures StartsWith("#" + d, "#") && RemoveFirst("#" + d, '#') == d
  {
    assert ("#" + d)[1..] == d;
  }

  /** Whether 299 R + 587 G + 114 B of six hexadecimal digits is above 127500, i.e. the luminance above one half. */
  predicate IsLightHex(d: string)
    requires IsSixHexDigits(d)
  {
    299 * Channel(d, 0) + 587 * Channel(d, 1) + 114 * Channel(d, 2) > 127500
  }

  /** Six hexadecimal digits read as a background give black text exactly when they are light. */
  lemma ReadableOfSixHex(d: string)
    requires IsSixHexDigits(d)
    ensures ReadableOfHex(d) == if IsLightHex(d) then "#000000" else "#FFFFFF"
  {
    ChannelOfSixHex(d, 0);
    ChannelOfSixHex(d, 1);
    ChannelOfSixHex(d, 2);
    ReadableOfValues(ChannelOf(d, 0), ChannelOf(d, 1), ChannelOf(d, 2), Channel(d, 0), Channel(d, 1), Channel(d, 2));
  }

  /** The text colour of three channel values the code has read. */
  lemma ReadableOfValues(r: Option<int>, g: Option<int>, b: Option<int>, x: nat, y: nat, z: nat)
    requires r == Some(x) && g == Some(y) && b == Some(z)
    ensures Readable(r, g, b) == if 299 * x + 587 * y + 114 * z > 127500 then "#000000" else "#FFFFFF"
  {
  }

  /** The luminance rule on a hexadecimal background: black text exactly when 299 R + 587 G + 114 B > 127500. */
  lemma TextColorOfHex(d: string)
    requires IsSixHexDigits(d)
    ensures TextColorForBackground("#" + d) == Ok(if IsLightHex(d) then "#000000" else "#FFFFFF")
  {
    HashDigits(d);
    ReadableOfSixHex(d);
  }

  /** White gets black text and black gets white text. */
  lemma TextColorOfWhiteAndBlack(white: string, black: string)
    requires white == "#FFFFFF" && black == "#000000"
    ensures TextColorForBackground(white) == Ok(black)
    ensures TextColorForBackground(black) == Ok(white)
  {
    var w, b := "FFFFFF", "000000";
    assert IsSixHexDigits(w) && IsSixHexDigits(b);
    assert white == "#" + w && black == "#" + b;
    assert IsLightHex(w) && !IsLightHex(b) by {
      assert Channel(w, 0) == 255 && Channel(w, 1) == 255 && Channel(w, 2) == 255;
      assert Channel(b, 0) == 0 && Channel(b, 1) == 0 && Channel(b, 2) == 0;
    }
    TextColorOfHex(w);
    TextColorOfHex(b);
  }

  /** A luminance of exactly one half, 299 * 0x00 + 587 * 0xCC + 114 * 0x44 == 127500, is not above the threshold: #00CC44 gets white text. */
  lemma TextColorAtThreshold(bg: string)
    requires bg == "#00CC44"
    ensures TextColorForBackground(bg) == Ok("#FFFFFF")
  {
    var d := "00CC44";
    assert IsSixHexDigits(d);
    assert bg == "#" + d;
    assert !IsLightHex(d) by {
      assert Channel(d, 0) == 0 && Channel(d, 1) == 0xCC && Channel(d, 2) == 0x44;
    }
    TextColorOfHex(d);
  }

  /**
   * `#DA3AF8` gets white text on exact values: 299 R + 587 G + 114 B is
   * 127500 there, one half exactly. This is the one byte colour where
   * double-precision rounding pushes the code's luminance above one half.
   */
  lemma TextColorAtRoundingPoint(bg: string)
    requires bg == "#DA3AF8"
    ensures TextColorForBackground(bg) == Ok("#FFFFFF")
  {
    var d := "DA3AF8";
    assert IsSixHexDigits(d);
    assert bg == "#" + d;
    assert !IsLightHex(d) by {
      assert Channel(d, 0) == 0xDA && Channel(d, 1) == 0x3A && Channel(d, 2) == 0xF8;
    }
    TextColorOfHex(d);
  }

  /** The decimal numerals of the channels of six digits, captured by the pattern, give the same text colour as the digits. */
  lemma ReadableOfDecimalChannels(d: string)
    requires IsSixHexDigits(d)
    ensures ReadableOfMatch(RgbMatch(ToDigits(Channel(d, 0), 10), ToDigits(Channel(d, 1), 10), ToDigits(Channel(d, 2), 10))) == ReadableOfHex(d)
  {
    var x, y, z := ToDigits(Channel(d, 0), 10), ToDigits(Channel(d, 1), 10), ToDigits(Channel(d, 2), 10);
    DecimalOfChannel(d, 0);
    DecimalOfChannel(d, 1);
    DecimalOfChannel(d, 2);
    ReadableOfValues(ParseInt(x, 10), ParseInt(y, 10), ParseInt(z, 10), Channel(d, 0), Channel(d, 1), Channel(d, 2));
    ReadableOfSixHex(d);
  }

  /** The hexadecimal and `rgb(...)` spellings of one colour get the same text colour. */
  lemma {:induction false} TextColorSpellingsAgree(d: string)
    requires IsSixHexDigits(d)
    ensures HexToRgb("#" + d).Ok?
    ensures TextColorForBackground(HexToRgb("#" + d).value) == TextColorForBackground("#" + d)
  {
    HashDigits(d);
    MatchHexToRgb("#" + d);
    var s := HexToRgb("#" + d).value;
    assert !StartsWith(s, "#") by {
      assert s == RgbOfChannels(d) && s[0] == 'r';
    }
    ReadableOfDecimalChannels(d);
  }

  /** Dropping the leading `#` of `#` and t leaves t. */
  lemma HashTail(t: string)
    ensures ("#" + t)[0] == '#' && ("#" + t)[1..] == t && RemoveFirst("#" + t, '#') == t
  {
  }

  /** Three channels written as lower-case pairs are six digits that read back as the same channels. */
  lemma ChannelsOfTwoDigits(a: nat, b: nat, c: nat)
    requires a < 256 && b < 256 && c < 256
    ensures var t := TwoDigits(a) + TwoDigits(b) + TwoDigits(c);
      IsSixHexDigits(t) && Channel(t, 0) == a && Channel(t, 1) == b && Channel(t, 2) == c
  {
    var t := TwoDigits(a) + TwoDigits(b) + TwoDigits(c);
    assert t == [DigitChar(a / 16), DigitChar(a % 16), DigitChar(b / 16), DigitChar(b % 16), DigitChar(c / 16), DigitChar(c % 16)];
  }

  /** A string of hexadecimal digits holds no `#`, so dropping the first `#` leaves it alone. */
  lemma NoHashInDigits(h: string)
    requires IsSixHexDigits(h)
    ensures RemoveFirst(h, '#') == h
  {
    assert '#' !in h by {
      assert forall i :: 0 <= i < |h| ==> IsHexDigit(h[i]);
    }
  }

  /** Inverting channels that are already inverted gives the original channels back. */
  lemma InvertInverted(t: string, h: string)
    requires IsSixHexDigits(t) && IsSixHexDigits(h)
    requires Channel(t, 0) == 255 - Channel(h, 0) && Channel(t, 1) == 255 - Channel(h, 1) && Channel(t, 2) == 255 - Channel(h, 2)
    ensures InvertedChannels(t) == "#" + LowerAscii(h)
  {
    var q := TwoDigits(Channel(h, 0)) + TwoDigits(Channel(h, 1)) + TwoDigits(Channel(h, 2));
    assert InvertedChannels(t) == "#" + q by {
      InvertedChannelsOfSixHex(t);
    }
    assert LowerAscii(h) == q by {
      LowerAsciiOfSixHex(h);
    }
  }

  /** Applying the complement twice gives back `#` and the digits in lower case. */
  lemma {:induction false} ComplementaryInvolution(hex: string)
    requires IsSixHexDigits(RemoveFirst(hex, '#'))
    ensures ComplementaryColor(ComplementaryColor(hex)) == "#" + LowerAscii(RemoveFirst(hex, '#'))
  {
    var h := RemoveFirst(hex, '#');
    InvertedChannelsOfSixHex(h);
    var a, b, c := 255 - Channel(h, 0), 255 - Channel(h, 1), 255 - Channel(h, 2);
    var t := TwoDigits(a) + TwoDigits(b) + TwoDigits(c);
    assert ComplementaryColor(hex) == InvertedChannels(h) == "#" + t;
    HashTail(t);
    ChannelsOfTwoDigits(a, b, c);
    InvertInverted(t, h);
    assert ComplementaryColor("#" + t) == InvertedChannels(t);
  }
}
