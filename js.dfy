/**
 * The JavaScript built-ins the pass-data code relies on, on the model's
 * strings (sequences of Unicode scalar values): truthiness of an optional
 * string, `||`, `String.prototype.replace` with a one-character pattern,
 * `substring`, `startsWith`, `trim`, `padStart`, `Array.prototype.join`,
 * `parseInt` and `Number.prototype.toString(radix)` on integral numbers.
 * `NaN` is the `None` of an `Option<int>`.
 */
module Js {
  import opened Wrappers
  import opened Numerals

  /** Truthiness of an optional string field: absent and "" are both the model's "". */
  predicate Truthy(s: string) {
    s != ""
  }

  /** `a || b` on two strings. */
  function Or(a: string, b: string): (r: string)
    ensures Truthy(a) ==> r == a
    ensures !Truthy(a) ==> r == b
  {
    if Truthy(a) then a else b
  }

  /**
   * The WhiteSpace and LineTerminator code points of ECMAScript: what the
   * class `\s` matches, what `trim` removes and what `parseInt` skips.
   */
  predicate IsWhitespace(c: char) {
    c == '\t' || c == '\n' || c == '\U{000B}' || c == '\U{000C}' || c == '\r' || c == ' '
    || c == '\U{00A0}' || c == '\U{1680}' || ('\U{2000}' <= c <= '\U{200A}')
    || c == '\U{2028}' || c == '\U{2029}' || c == '\U{202F}' || c == '\U{205F}'
    || c == '\U{3000}' || c == '\U{FEFF}'
  }

  /** `s.replace(c, "")` for a one-character pattern: only the first occurrence goes. */
  function RemoveFirst(s: string, c: char): (r: string)
    ensures c !in s ==> r == s
    ensures |r| == if c in s then |s| - 1 else |s|
  {
    if s == [] then []
    else if s[0] == c then s[1..]
    else [s[0]] + RemoveFirst(s[1..], c)
  }

  /** Only the first occurrence goes: the one after a prefix free of c. */
  lemma {:induction false} RemoveFirstAfter(a: string, c: char, b: string)
    requires c !in a
    ensures RemoveFirst(a + [c] + b, c) == a + b
  {
    if a == [] {
      assert a + [c] + b == [c] + b;
    } else {
      RemoveFirstAfter(a[1..], c, b);
      assert (a + [c] + b)[1..] == a[1..] + [c] + b;
      assert [a[0]] + (a[1..] + b) == a + b;
    }
  }

  function Min(a: nat, b: nat): nat {
    if a <= b then a else b
  }

  /** `s.substring(start, end)`: both ends clamped to the length, swapped when reversed. */
  function Substring(s: string, start: nat, end: nat): (r: string)
    ensures start <= end <= |s| ==> r == s[start..end]
    ensures |r| <= |s|
  {
    var a := Min(start, |s|);
    var b := Min(end, |s|);
    if a <= b then s[a..b] else s[b..a]
  }

  /** Every call of `substring`: the text between the smaller and the larger end, each clamped to the length. */
  lemma SubstringClamped(s: string, start: nat, end: nat)
    ensures start <= end ==> Substring(s, start, end) == s[Min(start, |s|)..Min(end, |s|)]
    ensures end < start ==> Substring(s, start, end) == s[Min(end, |s|)..Min(start, |s|)]
  {
  }

  predicate StartsWith(s: string, prefix: string) {
    |prefix| <= |s| && s[..|prefix|] == prefix
  }

  /** Two strings that differ at a position the prefix covers share no prefix. */
  lemma NotStartsWith(s: string, prefix: string, k: nat)
    requires k < |prefix| && k < |s| && s[k] != prefix[k]
    ensures !StartsWith(s, prefix)
  {
    if |prefix| <= |s| {
      assert s[..|prefix|][k] != prefix[k];
    }
  }

  /** `s.trimStart()`. */
  function TrimStart(s: string): (r: string)
    ensures |r| <= |s| && r == s[|s| - |r|..]
    ensures forall i :: 0 <= i < |s| - |r| ==> IsWhitespace(s[i])
    ensures r == [] || !IsWhitespace(r[0])
  {
    if s != [] && IsWhitespace(s[0]) then TrimStart(s[1..]) else s
  }

  /** `s.trimEnd()`. */
  function TrimEnd(s: string): (r: string)
    ensures |r| <= |s| && r == s[..|r|]
    ensures forall i :: |r| <= i < |s| ==> IsWhitespace(s[i])
    ensures r == [] || !IsWhitespace(r[|r| - 1])
  {
    if s != [] && IsWhitespace(s[|s| - 1]) then TrimEnd(s[..|s| - 1]) else s
  }

  /** `s.trim()`. */
  function Trim(s: string): (r: string)
    ensures |r| == 0 <==> forall i :: 0 <= i < |s| ==> IsWhitespace(s[i])
  {
    var t := TrimStart(s);
    var r := TrimEnd(t);
    if r == [] then r
    else
      assert !IsWhitespace(r[0]) && r[0] == t[0];
      r
  }

  /** `s.padStart(n, [c])`: copies of c before s up to the length n; never truncates. */
  function PadStart(s: string, n: nat, c: char): (r: string)
    ensures |r| == if |s| >= n then |s| else n
    ensures |s| >= n ==> r == s
    ensures |s| < n ==> r[n - |s|..] == s && forall k :: 0 <= k < n - |s| ==> r[k] == c
  {
    if |s| >= n then s else seq(n - |s|, _ => c) + s
  }

  /** `xs.join(sep)`. */
  function Join(xs: seq<string>, sep: string): string {
    if xs == [] then ""
    else if |xs| == 1 then xs[0]
    else xs[0] + sep + Join(xs[1..], sep)
  }

  /** A character absent from every element and from the separator is absent from the joined string. */
  lemma {:induction false} JoinExcludes(xs: seq<string>, sep: string, c: char)
    requires c !in sep
    requires forall i :: 0 <= i < |xs| ==> c !in xs[i]
    ensures c !in Join(xs, sep)
  {
    if |xs| > 1 {
      JoinExcludes(xs[1..], sep, c);
    }
  }

  /** Joining a first element and a non-empty rest. */
  lemma JoinCons(x: string, ys: seq<string>, sep: string)
    requires ys != []
    ensures Join([x] + ys, sep) == x + sep + Join(ys, sep)
  {
    assert ([x] + ys)[1..] == ys;
  }

  /** Joining after adding one element at the end. */
  lemma {:induction false} JoinSnoc(xs: seq<string>, x: string, sep: string)
    requires xs != []
    ensures Join(xs + [x], sep) == Join(xs, sep) + sep + x
  {
    if |xs| > 1 {
      assert (xs + [x])[1..] == xs[1..] + [x];
      JoinSnoc(xs[1..], x, sep);
    } else {
      assert (xs + [x])[1..] == [x];
    }
  }

  predicate EndsWith(s: string, suffix: string) {
    |suffix| <= |s| && s[|s| - |suffix|..] == suffix
  }

  /** A joined list starts with its first element. */
  lemma JoinStart(xs: seq<string>, sep: string)
    requires xs != []
    ensures StartsWith(Join(xs, sep), xs[0])
  {
    if |xs| > 1 {
      assert Join(xs, sep) == xs[0] + (sep + Join(xs[1..], sep));
    }
  }

  /** A joined list ends with its last element. */
  lemma {:induction false} JoinEnd(xs: seq<string>, sep: string)
    requires xs != []
    ensures EndsWith(Join(xs, sep), xs[|xs| - 1])
  {
    if |xs| > 1 {
      JoinEnd(xs[1..], sep);
      var rest := Join(xs[1..], sep);
      assert Join(xs, sep) == (xs[0] + sep) + rest;
      assert xs[1..][|xs[1..]| - 1] == xs[|xs| - 1];
    }
  }

  /** `s.split(c)` for a one-character separator. */
  function Split(s: string, c: char): (r: seq<string>)
    ensures |r| > 0
  {
    if s == [] then [""]
    else if s[0] == c then [""] + Split(s[1..], c)
    else
      var rest := Split(s[1..], c);
      [[s[0]] + rest[0]] + rest[1..]
  }

  /** Splitting a piece free of the separator, followed by the separator. */
  lemma {:induction false} SplitPiece(x: string, c: char, t: string)
    requires c !in x
    ensures Split(x + [c] + t, c) == [x] + Split(t, c)
  {
    if x == [] {
      assert x + [c] + t == [c] + t;
      assert ([c] + t)[1..] == t;
    } else {
      assert (x + [c] + t)[1..] == x[1..] + [c] + t;
      SplitPiece(x[1..], c, t);
      assert [x[0]] + x[1..] == x;
    }
  }

  /** A character free of every element splits its own join back into the elements. */
  lemma {:induction false} SplitJoin(xs: seq<string>, c: char)
    requires |xs| > 0
    requires forall i :: 0 <= i < |xs| ==> c !in xs[i]
    ensures Split(Join(xs, [c]), c) == xs
  {
    if |xs| == 1 {
      SplitFree(xs[0], c);
    } else {
      SplitJoin(xs[1..], c);
      SplitPiece(xs[0], c, Join(xs[1..], [c]));
      assert xs[0] + [c] + Join(xs[1..], [c]) == Join(xs, [c]);
    }
  }

  /** A string free of the separator splits into itself. */
  lemma {:induction false} SplitFree(x: string, c: char)
    requires c !in x
    ensures Split(x, c) == [x]
  {
    if x != [] {
      SplitFree(x[1..], c);
      assert [x[0]] + x[1..] == x;
    }
  }

  /** The longest prefix of digits of the radix. */
  function LeadingDigits(s: string, radix: nat): (r: string)
    requires IsRadix(radix)
    ensures |r| <= |s| && r == s[..|r|] && AllDigitsOf(r, radix)
    ensures |r| < |s| ==> !IsDigitOf(s[|r|], radix)
  {
    if s != [] && IsDigitOf(s[0], radix) then [s[0]] + LeadingDigits(s[1..], radix) else []
  }

  /** The text after one leading sign, if there is one. */
  function Unsigned(t: string): string {
    if t != [] && (t[0] == '-' || t[0] == '+') then t[1..] else t
  }

  /** Radix 16 drops a leading `0x` or `0X`. */
  function StripRadixPrefix(u: string, radix: nat): string {
    if radix == 16 && |u| >= 2 && u[0] == '0' && (u[1] == 'x' || u[1] == 'X') then u[2..] else u
  }

  /**
   * `parseInt(s, radix)` for radix 10 and 16: leading white space is skipped,
   * one sign is read, radix 16 drops a `0x`/`0X` prefix, then the longest
   * run of digits is read; no digit at all gives `NaN`.
   */
  function ParseInt(s: string, radix: nat): Option<int>
    requires IsRadix(radix)
  {
    var t := TrimStart(s);
    var d := LeadingDigits(StripRadixPrefix(Unsigned(t), radix), radix);
    var value: int := ValueOf(d, radix);
    if d == [] then None
    else if t != [] && t[0] == '-' then Some(-value)
    else Some(value)
  }

  /** On a non-empty numeral, `parseInt` gives the numeral's value. */
  lemma ParseIntOfDigits(s: string, radix: nat)
    requires IsRadix(radix) && |s| > 0 && AllDigitsOf(s, radix)
    ensures ParseInt(s, radix) == Some(ValueOf(s, radix))
  {
    assert TrimStart(s) == s by {
      assert !IsWhitespace(s[0]);
    }
    assert Unsigned(s) == s by {
      assert IsDigitOf(s[0], radix);
    }
    assert StripRadixPrefix(s, radix) == s by {
      assert |s| >= 2 ==> IsDigitOf(s[1], radix);
    }
    LeadingDigitsOfDigits(s, radix);
  }

  lemma {:induction false} LeadingDigitsOfDigits(s: string, radix: nat)
    requires IsRadix(radix) && AllDigitsOf(s, radix)
    ensures LeadingDigits(s, radix) == s
  {
    if s != [] {
      LeadingDigitsOfDigits(s[1..], radix);
    }
  }

  /** `String(n)` or `n.toString(radix)` of an integral number, or of `NaN`. */
  function NumberToString(n: Option<int>, radix: nat): string
    requires IsRadix(radix)
  {
    match n
    case None => "NaN"
    case Some(v) => if v < 0 then "-" + ToDigits(-v, radix) else ToDigits(v, radix)
  }
}
