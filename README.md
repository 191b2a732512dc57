# Business-card pass data, modelled in Dafny

This project models the part of the wallet-pass generator that turns a
contact record into pass data:

- **Colour helpers** (`src/lib/utils/color.ts`):
  - `hexToRgb` converts `#RRGGBB` to `rgb(r, g, b)` and rejects anything else;
  - `rgbToHex` reads the first `rgb(d, d, d)` in a string and writes lower-case `#rrggbb`;
  - `getTextColorForBackground` picks black or white text by perceived luminance;
  - `getComplementaryColor` inverts every channel.
- **vCard encoder** (`src/lib/utils/vcard.ts`):
  - `generateVCard` writes a vCard 3.0 block (RFC 2426). It has four fixed lines, up to ten optional lines in a fixed order and an end marker, joined by the two characters backslash and `n`.
  - `generateVCardUri` wraps that block in a `data:` URI (RFC 2397). The URI carries the block's UTF-8 bytes in base 64 (section 4 of RFC 4648).
  - `generateContactUri` builds a contact link whose query is a `URLSearchParams` serialization (section 5 of the WHATWG URL Standard).
- **Pass route** (`src/app/api/business-card/generate-pass/route.ts`):
  - its own unvalidated `hexToRgb`;
  - its own vCard builder, which spells four tags differently;
  - inside `POST`, the assembly of the pass: the properties, the primary, secondary, auxiliary and back field lists, and the barcode.

## How the model is built

- **Optional fields** are strings, and `""` stands for both an absent field and an empty one. JavaScript truthiness is `Js.Truthy`, and `||` on strings is `Js.Or`.
- **JavaScript built-ins** the code calls are written out in module `Js` on Dafny strings: `replace` with a one-character pattern, `substring`, `trim`, `padStart`, `join`, `parseInt` and `Number.prototype.toString`.
  - `NaN` is the `None` of an `Option<int>`.
  - So the route's unvalidated `hexToRgb` and `getComplementaryColor` are total functions, as in the source.
- **Regular expressions.** The unanchored `rgb(...)` pattern is `Color.MatchAt` (a match at one position) and `Color.FirstMatch` (the leftmost one). `Color.IsRgbAt` says independently what text the pattern matches, and a lemma shows the two agree both ways. `Color.IsSixHexDigits` is the anchored hex pattern.
- **Luminance** is the exact integer comparison `299 R + 587 G + 114 B > 127500`.
- **Conditional pushes.** A run of conditional `push` calls is described by a table of `(condition, item)` pairs and `Ordered.Keep`, which keeps the items whose condition holds, in order. `Ordered.Rank` gives the position a kept item ends up at.
- **Both vCard builders** are one method, `VCard.Build`, over a `Dialect` (`Library` or `Route`). It makes the same pushes as the source and is proved equal to the specification function `VCard.VCardText`.
- **The pass object** is the class `BusinessCardRoute.Pass`: its field lists are `seq` fields, and each `push` is a method with a frame. `BusinessCardRoute.GeneratePass` performs the route's pushes in the route's order and is proved equal to the specification function `BusinessCardRoute.PassOf`. The remaining lemmas state the list shapes in terms of `PassOf`.
- **Partners.**
  - The `data:` URI has a reader: strict base 64 and UTF-8 decoders.
  - The query serialization has the `URLSearchParams` parser.
  - Each has a round-trip lemma.

Some of the code's behaviour is easy to miss. The model follows the code:

- `hexToRgb` drops the first `#` wherever it is, not only a leading one. For example, `12#3456` is accepted.
- The route's `hexToRgb` and `getComplementaryColor` never fail on a string. Invalid input can give `NaN` text, or it can be read in part: `#1234567` gives `rgb(18, 52, 86)`, and `#12345G` reads its last pair as 5.
- The `contactInfo` back field starts with the separator when the e-mail is empty and a phone or website follows. Its value is not a plain join.
- The address back field also drops parts that are only white space.
- The pass type and team identifiers are constants in the code, and the model has them as constants.

## Model

| member | source | states |
|---|---|---|
| Js.Or | src/lib/utils/vcard.ts:51-53 | the or-operator on strings: `a` when it is non-empty, otherwise `b` |
| Js.RemoveFirst | src/lib/utils/color.ts:9 | `replace("#", "")` leaves a string without `#` unchanged and otherwise removes exactly one character |
| Js.RemoveFirstAfter | src/lib/utils/color.ts:9 | only the first `#` goes: after a prefix free of `#`, the result is the prefix followed by the rest |
| Js.Substring | src/lib/utils/color.ts:17-19 | `substring(start, end)` is the slice when the bounds are in range, and is never longer than its input |
| Js.SubstringClamped | src/lib/utils/color.ts:17-19 | for any bounds, `substring` is the text between the smaller and the larger bound, each clamped to the length |
| Js.TrimStart | src/app/api/business-card/generate-pass/route.ts:188 | `trimStart` removes exactly the leading white space and leaves a suffix that starts with non-white space |
| Js.TrimEnd | src/app/api/business-card/generate-pass/route.ts:188 | `trimEnd` removes exactly the trailing white space and leaves a prefix |
| Js.Trim | src/app/api/business-card/generate-pass/route.ts:188 | `trim()` is empty exactly when every character is white space |
| Js.PadStart | src/lib/utils/color.ts:37-39 | `padStart(n, c)` returns the input unchanged when it has at least `n` characters; otherwise it puts copies of `c` before the input up to length `n`. It never truncates |
| Js.JoinCons | src/lib/utils/vcard.ts:64 | joining a first element and a non-empty rest puts one separator between them |
| Js.JoinSnoc | src/lib/utils/vcard.ts:64 | joining after one more element adds the separator and that element at the end |
| Js.JoinStart | src/lib/utils/vcard.ts:64 | a joined list starts with its first element |
| Js.JoinEnd | src/lib/utils/vcard.ts:64 | a joined list ends with its last element |
| Js.JoinExcludes | src/lib/utils/vcard.ts:64 | a character absent from every element and from the separator is absent from the joined text |
| Js.SplitJoin | src/lib/utils/vcard.ts:90 | splitting a join at a separator character that no element contains gives the elements back |
| Js.SplitPiece | src/lib/utils/vcard.ts:90 | a piece free of the separator, then the separator, splits off as one element |
| Js.SplitFree | src/lib/utils/vcard.ts:90 | a string free of the separator splits into just itself |
| Js.LeadingDigits | src/lib/utils/color.ts:17-19 | the digits `parseInt` reads are the longest prefix of digits of the radix |
| Js.ParseIntOfDigits | src/lib/utils/color.ts:17-19 | `parseInt` of a non-empty numeral is its value |
| Numerals.DigitValue | src/lib/utils/color.ts:12 | a hex digit in either case has a value below 16, and below 10 exactly for decimal digits |
| Numerals.DigitChar | src/lib/utils/color.ts:89-91 | `toString(16)` writes a digit as a lower-case character of that value |
| Numerals.ToLowerAscii | src/lib/utils/color.ts:7-42 | a hex digit is lower-cased to the digit `toString(16)` writes for its value; other characters outside A-Z stay |
| Numerals.LowerAscii | src/lib/utils/color.ts:7-42 | lower-casing works character by character and keeps the length |
| Numerals.ToDigits | src/lib/utils/color.ts:22 | `toString(radix)` of a natural number is a non-empty numeral of that value |
| Numerals.ToDigitsShape | src/lib/utils/color.ts:37-39 | `toString(16)` has no upper-case digit and no leading zero |
| Numerals.HexDigitsLength | src/lib/utils/color.ts:37-39 | `toString(16)` has one digit below 16, two below 256 and at least three from 256 on |
| Numerals.ValueOfHexPair | src/lib/utils/color.ts:17-19 | a two-digit hex numeral is worth 16 times its first digit plus its second, so below 256 |
| Color.Channel | src/lib/utils/color.ts:17-19 | each channel of six hex digits is below 256 |
| Color.ChannelOfSixHex | src/lib/utils/color.ts:17-19 | on six hex digits, `parseInt` of each two-character substring is the channel's value, not `NaN` |
| Color.RgbTextOfSixHex | src/lib/utils/color.ts:17-22 | the template text of the three parsed channels is `rgb(r, g, b)` with decimal channels |
| Color.DigitsToRgb | src/lib/utils/color.ts:12-22 | succeeds exactly when the text is six hex digits, fails with the hex error otherwise, and gives the rgb text of the channels |
| Color.HexToRgb | src/lib/utils/color.ts:7-23 | succeeds exactly when what remains after removing the first `#` is six hex digits; otherwise fails with the hex error; the value is `rgb(r, g, b)` of the channels |
| ColorProperties.HexToRgbOfRed | src/lib/utils/color.ts:7-23 | `#FF0000` gives `rgb(255, 0, 0)` |
| ColorProperties.HexToRgbRejectsWord | src/lib/utils/color.ts:12-14 | a word that is not a colour is rejected with the hex error |
| ColorProperties.HexToRgbDropsFirstHash | src/lib/utils/color.ts:9-14 | `12#3456` is accepted like `#123456`, and `##123456` is rejected: only the first `#` goes |
| Color.SkipWhitespace | src/lib/utils/color.ts:31 | `\s*` consumes only white space, and stops at the first other character or the end |
| Color.SkipDigits | src/lib/utils/color.ts:31 | `\d+` consumes decimal digits up to the first other character |
| Color.Group | src/lib/utils/color.ts:31 | a group it finds is laid out as `IsGroupAt` says: white space, a numeral that is captured, white space, then the separator |
| ColorProperties.SkipWhitespaceRun | src/lib/utils/color.ts:31 | a run of white space that ends at another character is consumed in one step |
| ColorProperties.GroupIsGroupAt | src/lib/utils/color.ts:31 | for a separator that is neither a digit nor white space, `Group` finds a span exactly when the text there is white space, a numeral, white space and the separator |
| ColorProperties.GroupAtIsGroup | src/lib/utils/color.ts:31 | every such layout is found by `Group` with exactly its span |
| Color.MatchAt | src/lib/utils/color.ts:31 | a match of the `rgb(...)` pattern at a position captures three numerals |
| ColorProperties.MatchAtIsRgbAt | src/lib/utils/color.ts:31 | `MatchAt` finds captures at a position exactly when the pattern matches there with those captures (`IsRgbAt`) |
| ColorProperties.MatchIsRgbAt | src/lib/utils/color.ts:31 | what `MatchAt` finds is a match of the pattern |
| ColorProperties.RgbAtIsMatch | src/lib/utils/color.ts:31 | every match of the pattern is found by `MatchAt` |
| ColorProperties.RgbWithIsMatch | src/lib/utils/color.ts:31 | three groups laid out one after another behind `rgb(` are exactly what `MatchAt` captures |
| ColorProperties.StartsWithAt | src/lib/utils/color.ts:31 | the pattern's literal `rgb(` at a position is the four characters from there |
| Color.FirstIndexLeftmost | src/lib/utils/color.ts:31 | the search position returned is the first one with a match; none before it matches |
| Color.Leftmost | src/lib/utils/color.ts:31 | the search finds nothing exactly when no position matches, and otherwise returns the leftmost match |
| Color.FirstMatch | src/lib/utils/color.ts:31-34 | `match` on the unanchored pattern fails exactly when no position matches, and otherwise gives the leftmost match |
| Color.HexPairOfValue | src/lib/utils/color.ts:37-39 | `toString(16).padStart(2, "0")` is lower-case hex whose value is the number, of length at least two, and exactly two when the value is below 256 |
| Color.TwoDigitsValue | src/lib/utils/color.ts:37-39 | a channel below 256 is written as two hex digits whose value is the channel |
| Color.GroupToHex | src/lib/utils/color.ts:37-39 | a captured numeral is written as lower-case hex digits whose value is the numeral's decimal value; that is two characters exactly when the value is below 256, and then it is the channel's two digits |
| Color.RgbToHex | src/lib/utils/color.ts:29-42 | fails with the rgb error exactly when no position of the input matches the pattern. Otherwise it gives `#` and the hex of the leftmost match's red, green and blue groups in that order; when every channel is below 256, that is `#` and each channel's two digits |
| ColorProperties.RgbToHexOfSpacedText | src/lib/utils/color.ts:29-42 | `rgb( 10 ,20,30 )` gives `#0a141e`: white space around a group is skipped |
| ColorProperties.SpacedTextMatch | src/lib/utils/color.ts:31 | the pattern captures `10`, `20` and `30` in `rgb( 10 ,20,30 )` |
| ColorProperties.RgbToHexOfTens | src/lib/utils/color.ts:36-41 | captured channels 10, 20 and 30 are written `#0a141e` |
| ColorProperties.DecimalPairValue | src/lib/utils/color.ts:37 | two decimal digits have the value `10 a + b` |
| Color.RgbToHexLength | src/lib/utils/color.ts:37-41 | the result has length 7 exactly when every captured channel is below 256: `padStart` never truncates |
| ColorProperties.MatchRgbOf | src/lib/utils/color.ts:31 | the pattern matches the canonical text `rgb(x, y, z)` at its start and captures `x`, `y` and `z` |
| ColorProperties.MatchHexToRgb | src/lib/utils/color.ts:7-31 | the pattern of `rgbToHex` reads back the three decimal channels that `hexToRgb` wrote |
| ColorProperties.RgbToHexOfHexToRgb | src/lib/utils/color.ts:7-42 | round trip: for every accepted hex colour, `rgbToHex(hexToRgb(h))` is `#` and the lower-cased six digits |
| Color.ReadableOfHex | src/lib/utils/color.ts:52-56 | the hex branch only ever gives `#000000` or `#FFFFFF` |
| Color.ReadableOfMatch | src/lib/utils/color.ts:59-66 | the rgb branch only ever gives `#000000` or `#FFFFFF` |
| Color.TextColorForBackground | src/lib/utils/color.ts:48-74 | the answer is `#000000` or `#FFFFFF`; it fails with the colour error exactly when the input does not start with `#` and no position matches the rgb pattern |
| ColorProperties.ReadableOfValues | src/lib/utils/color.ts:70-73 | on channel values, the answer is black exactly when `299 R + 587 G + 114 B > 127500`, strictly |
| ColorProperties.ReadableOfSixHex | src/lib/utils/color.ts:52-56 | on six hex digits, the hex branch answers by the luminance of the channels |
| ColorProperties.TextColorOfHex | src/lib/utils/color.ts:48-74 | `#` and six hex digits give black text exactly when the colour is light |
| ColorProperties.TextColorOfWhiteAndBlack | src/lib/utils/color.ts:48-74 | `#FFFFFF` gives `#000000`, and `#000000` gives `#FFFFFF` |
| ColorProperties.TextColorAtThreshold | src/lib/utils/color.ts:70-73 | `#00CC44`, whose luminance is exactly one half, gives white text: the comparison is strict |
| ColorProperties.TextColorAtRoundingPoint | src/lib/utils/color.ts:70-73 | `#DA3AF8`, also exactly one half on exact values, gives white text in the model |
| ColorProperties.ReadableOfDecimalChannels | src/lib/utils/color.ts:59-73 | the rgb branch on the decimal channels of a hex colour answers as the hex branch does |
| ColorProperties.TextColorSpellingsAgree | src/lib/utils/color.ts:48-74 | the `#rrggbb` and `rgb(r, g, b)` spellings of a colour get the same text colour |
| Color.InvertedPairOfSixHex | src/lib/utils/color.ts:84-91 | on six hex digits, each inverted channel is written as two digits of `255 - c` |
| Color.InvertSome | src/lib/utils/color.ts:89-91 | inverting a parsed channel `c` gives `255 - c` |
| Color.InvertedChannels | src/lib/utils/color.ts:84-93 | the inverted colour is `#` and at least six characters |
| Color.ComplementaryColor | src/lib/utils/color.ts:79-94 | the complement is `#` and at least six characters, for any input |
| Color.InvertedChannelsOfSixHex | src/lib/utils/color.ts:84-93 | on six hex digits, the complement is `#` then `255 - c` in two lower-case digits for each channel |
| ColorProperties.ComplementaryInvolution | src/lib/utils/color.ts:79-94 | applied twice to an accepted colour, the complement gives `#` and the lower-cased six digits |
| Ordered.KeepSnoc | src/lib/utils/vcard.ts:34-46 | one more conditional push adds its item at the end exactly when its condition holds |
| Ordered.KeepLength | src/lib/utils/vcard.ts:34-46 | the number of items pushed before position `i` is the rank of `i` |
| Ordered.KeepAt | src/lib/utils/vcard.ts:34-46 | an item whose condition holds is in the list at its rank |
| Ordered.RankIncreasing | src/lib/utils/vcard.ts:34-46 | a pushed item comes before every later one: ranks increase |
| Ordered.KeepMember | src/lib/utils/vcard.ts:34-46 | an item is in the list exactly when some entry with that item has its condition true |
| Ordered.KeepEmpty | src/lib/utils/vcard.ts:34-46 | nothing is pushed exactly when no condition holds |
| Ordered.KeepTwo | src/app/api/business-card/generate-pass/route.ts:117-148 | two conditional pushes give their present items in order |
| Ordered.KeepThree | src/app/api/business-card/generate-pass/route.ts:154-156 | three conditional parts give their present items in order |
| Ordered.KeepFour | src/app/api/business-card/generate-pass/route.ts:160-164 | four conditional pushes give their present items in order |
| VCard.Spell | src/app/api/business-card/generate-pass/route.ts:33-46 | the route spells a tag differently exactly for EMAIL, TEL, URL (website) and ADR, and keeps each tag's place in the order |
| VCard.Entry | src/lib/utils/vcard.ts:34-55 | the optional properties are indexed 0 to 9 in push order |
| VCard.Entries | src/lib/utils/vcard.ts:34-55 | the ten optional lines and their conditions: TITLE, ORG, EMAIL, TEL, URL, the four social URLs, and ADR when some address part is present |
| VCard.LinesPushed | src/lib/utils/vcard.ts:26-61 | the fixed lines, then the ten conditional pushes, then `END:VCARD`, equal the specified card lines |
| VCard.Build | src/lib/utils/vcard.ts:26-64 | the builder's pushes and join give exactly the specified card text, for either spelling |
| VCard.GenerateVCard | src/lib/utils/vcard.ts:7-65 | `generateVCard` returns the library card text |
| VCard.LinesFrame | src/lib/utils/vcard.ts:26-31 | there are at least five lines: `BEGIN:VCARD`, `VERSION:3.0`, `N:last;first;;;`, `FN:first last` first and `END:VCARD` last |
| VCard.LineCount | src/lib/utils/vcard.ts:26-61 | the card has 5 lines plus one per present optional field plus one for a present address, so 5 to 15 |
| VCard.OptionalPresent | src/lib/utils/vcard.ts:34-55 | each optional property is in the card exactly when its field is present |
| VCard.OptionalLine | src/lib/utils/vcard.ts:34-55 | a present optional property's line sits after the four fixed lines at its rank, before the end marker |
| VCard.OptionalOrder | src/lib/utils/vcard.ts:34-55 | a present optional line comes before every later one in the fixed order |
| VCard.BodyLine | src/lib/utils/vcard.ts:34-55 | every line between the header and the end marker is the line of some present optional property |
| VCard.NamesOnly | src/lib/utils/vcard.ts:26-31 | a record with only first and last names gives exactly the four fixed lines and `END:VCARD` |
| VCard.AdrJoin | src/lib/utils/vcard.ts:51-53 | the ADR value is the seven `;`-separated positions: two empty ones, then the five components |
| VCard.AdrPositions | src/lib/utils/vcard.ts:51-53 | when no component holds a `;`, the ADR value splits back into seven positions, the five components at the end |
| VCard.TextFree | src/lib/utils/vcard.ts:64 | when no field holds a line feed, the card text holds none: the separator is backslash and `n` |
| VCard.VCardUriRoundTrip | src/lib/utils/vcard.ts:71-77 | the URI starts with `data:text/vcard;base64,`, and reading it back gives exactly the card text |
| Base64.Encode | src/lib/utils/vcard.ts:75 | the encoding has four characters per started group of three bytes |
| Base64.EncodeAlphabet | src/lib/utils/vcard.ts:75 | every character is of the base 64 alphabet, except pads in the last two places |
| Base64.DecodeEncode | src/lib/utils/vcard.ts:75 | the strict decoder undoes the encoder on every byte string |
| Base64.DecodeFirst3 | src/lib/utils/vcard.ts:75 | a first group of three bytes decodes back to them, ahead of whatever the rest decodes to |
| Base64.SextetRoundTrip | src/lib/utils/vcard.ts:75 | the character of each six-bit value reads back as that value |
| Utf8.EncodeChar | src/lib/utils/vcard.ts:75 | a character is encoded as 1 to 4 bytes: one byte exactly for ASCII, and only bytes of 0x80 and above otherwise |
| Utf8.DecodeEncode | src/lib/utils/vcard.ts:75 | decoding the UTF-8 bytes of a string gives the string back |
| Utf8.EncodeConcat | src/lib/utils/vcard.ts:75 | UTF-8 encoding distributes over concatenation |
| Utf8.EncodeAscii | src/lib/utils/vcard.ts:75 | an ASCII string is encoded byte for byte |
| FormUrlencoded.SearchParams.constructor | src/lib/utils/vcard.ts:84 | `new URLSearchParams()` holds no pairs |
| FormUrlencoded.SearchParams.Append | src/lib/utils/vcard.ts:85-88 | `append` adds its pair at the end and changes nothing else |
| FormUrlencoded.SerializeByte | src/lib/utils/vcard.ts:90 | each byte is written as 1 to 3 ASCII characters, never `&` or `=` |
| FormUrlencoded.SerializeComponent | src/lib/utils/vcard.ts:90 | a serialized name or value is ASCII and holds no `&` and no `=` |
| FormUrlencoded.DecodeComponentOfSerialized | src/lib/utils/vcard.ts:90 | the parser decodes a serialized name or value back to itself |
| FormUrlencoded.ParseSerialize | src/lib/utils/vcard.ts:90 | parsing `toString()` gives back the same pairs in the same order |
| VCard.GenerateContactUri | src/lib/utils/vcard.ts:83-91 | the method's appends and `toString` give the page followed by the serialized query of the present parameters |
| VCard.ContactQueryPushed | src/lib/utils/vcard.ts:85-88 | the four conditional appends give the pairs of the present parameters, in order |
| VCard.ContactUriRoundTrip | src/lib/utils/vcard.ts:83-91 | the link starts with the page address, and parsing its query gives the pairs of the present parameters |
| VCard.ContactParamPresent | src/lib/utils/vcard.ts:85-88 | `given`, `family`, `email` and `phone` each appear exactly when their field is present |
| VCard.ContactParamOrder | src/lib/utils/vcard.ts:85-90 | present parameters appear in the order `given`, `family`, `email`, `phone` |
| BusinessCardRoute.HexToRgb | src/app/api/business-card/generate-pass/route.ts:9-20 | the unvalidated converter agrees with the library `hexToRgb` wherever that accepts the colour |
| BusinessCardRoute.ThirdChannelShort | src/app/api/business-card/generate-pass/route.ts:16 | with at most four characters left, the third `parseInt` is `NaN` |
| BusinessCardRoute.RgbTextNaN | src/app/api/business-card/generate-pass/route.ts:19 | a `NaN` third channel is written as `NaN)` at the end |
| BusinessCardRoute.HexToRgbShort | src/app/api/business-card/generate-pass/route.ts:9-20 | where the library rejects a short colour, the route's converter gives text ending in `NaN)` instead of failing |
| BusinessCardRoute.GenerateVCard | src/app/api/business-card/generate-pass/route.ts:23-55 | the route's builder returns the card text in the route's spelling |
| BusinessCardRoute.RouteLines | src/app/api/business-card/generate-pass/route.ts:23-55 | the route's card has as many lines as the library's, the same fixed lines, and the same optional properties at every position, differing only in spelling |
| BusinessCardRoute.Pass.constructor | src/app/api/business-card/generate-pass/route.ts:79-104 | a new pass holds the given properties and empty field lists |
| BusinessCardRoute.Pass.PushPrimary | src/app/api/business-card/generate-pass/route.ts:110-114 | `primaryFields.push` adds the field at the end and changes nothing else |
| BusinessCardRoute.Pass.PushSecondary | src/app/api/business-card/generate-pass/route.ts:118-130 | `secondaryFields.push` adds the field at the end and changes nothing else |
| BusinessCardRoute.Pass.PushAuxiliary | src/app/api/business-card/generate-pass/route.ts:135-147 | `auxiliaryFields.push` adds the field at the end and changes nothing else |
| BusinessCardRoute.Pass.PushBack | src/app/api/business-card/generate-pass/route.ts:151-195 | `backFields.push` adds the field at the end and changes nothing else |
| BusinessCardRoute.Pass.SetBarcodes | src/app/api/business-card/generate-pass/route.ts:202-206 | `setBarcodes` makes the one given barcode the pass's barcodes and changes nothing else |
| BusinessCardRoute.FieldOf | src/app/api/business-card/generate-pass/route.ts:110-196 | a field of a kind carries that kind's key and the given value |
| BusinessCardRoute.KeysDistinct | src/app/api/business-card/generate-pass/route.ts:110-196 | the eight field keys are pairwise different, so a key tells its field kind |
| BusinessCardRoute.SocialNetworkLines | src/app/api/business-card/generate-pass/route.ts:160-164 | the four conditional pushes give the specified list of social network lines |
| BusinessCardRoute.PushFrontFields | src/app/api/business-card/generate-pass/route.ts:110-148 | on a pass with empty front lists, the pushes leave the full-name primary field, the secondary list and the auxiliary list as specified, and nothing else changed |
| BusinessCardRoute.PushBackFields | src/app/api/business-card/generate-pass/route.ts:151-197 | on a pass with no back fields, the pushes leave the specified back list and nothing else changed |
| BusinessCardRoute.GeneratePass | src/app/api/business-card/generate-pass/route.ts:76-206 | the assembly gives exactly the specified pass: properties, four field lists and one barcode |
| BusinessCardRoute.HeaderFields | src/app/api/business-card/generate-pass/route.ts:91-102 | version 1; the record's identifier as serial number; the fixed identifiers; the company name, or `Tarjeta Personal` and the full name; the description naming the person; colours agreeing with the library converter where it accepts them |
| BusinessCardRoute.PairShape | src/app/api/business-card/generate-pass/route.ts:117-148 | of two conditional pushes of different items, each is present exactly when its condition holds; the count is the number of true conditions; the first comes first |
| BusinessCardRoute.FrontShape | src/app/api/business-card/generate-pass/route.ts:117-148 | the secondary fields are job then company, and the auxiliary fields are email then phone, each present exactly when its field is |
| BusinessCardRoute.ContactInfoJoin | src/app/api/business-card/generate-pass/route.ts:151-157 | the contact value is the present e-mail, phone and website joined by the separator, with a leading separator when the e-mail is absent and something follows |
| BusinessCardRoute.SocialPresent | src/app/api/business-card/generate-pass/route.ts:160-166 | there are social network lines exactly when some network is present |
| BusinessCardRoute.SocialOrder | src/app/api/business-card/generate-pass/route.ts:160-164 | present networks appear in the order LinkedIn, Twitter, Instagram, Facebook, each with its label |
| BusinessCardRoute.AddressFilter | src/app/api/business-card/generate-pass/route.ts:182-188 | a string is kept exactly when it is one of the five address components and is not blank after trimming |
| BusinessCardRoute.AddressPresent | src/app/api/business-card/generate-pass/route.ts:175-190 | the address field is pushed exactly when some component is non-blank |
| BusinessCardRoute.BackFrame | src/app/api/business-card/generate-pass/route.ts:151-197 | the back list has 1 to 3 fields; `contactInfo` is always first; `socialMedia` is second when present, and `address` is last when present |
| BusinessCardRoute.BackSocial | src/app/api/business-card/generate-pass/route.ts:159-172 | the back list has a `socialMedia` field exactly when some network is present |
| BusinessCardRoute.BackAddress | src/app/api/business-card/generate-pass/route.ts:174-197 | the back list has an `address` field exactly when some component is non-blank |
| BusinessCardRoute.BlankAddress | src/app/api/business-card/generate-pass/route.ts:44-50 | white-space parts keep the vCard's ADR line but give no `address` back field (lines 175-197) |
| BusinessCardRoute.BarcodeMessage | src/app/api/business-card/generate-pass/route.ts:200-206 | the message is the request's when present, else the route's whole card from `BEGIN:VCARD` to `END:VCARD`; the format passes through and the encoding is `utf-8`; the pass has that one barcode |

## Left out

- **Request handling:** authentication, the JSON body, the database record, the certificate files, template loading by `PKPass.from`, `localize`, `getAsBuffer`, the HTTP response and the error handler. The record's identifier is a parameter of `GeneratePass`.
- **The pass template** is assumed to start with empty field lists, as the constructor of `Pass` has them.
- **PushFrontFields and PushBackFields:** stated for a pass whose lists they fill are still empty, which is how the route calls them. Pushes onto non-empty lists are covered only by the single-push methods.
- **Other repository code:** user-interface components, the schemas, the commented-out coupon route and the stamp-card route (which is not part of this model).
- **Floating-point luminance:** `ReadableOfValues` uses the exact rational comparison, not the code's double-precision arithmetic. Among all byte colours the two disagree only at `#DA3AF8` (218, 58, 248). Its exact luminance is one half, but the double computation gives 0.5000000000000001, so the code answers `#000000` where the model answers `#FFFFFF` (`TextColorAtRoundingPoint`). At `#00CC44` the two agree.
- **Number precision:** numerals are read and written as unbounded integers, with no limit on their size. `parseInt` of numerals too long for a double is not modelled.
- **Missing fields:** "present" is a non-empty string. A missing optional field is modelled as `""`. A missing `firstName` or `lastName`, which the template text would render as `undefined`, is also modelled as `""`.
- **Missing colours:** when `foregroundColor`, `backgroundColor` or `labelColor` is missing, the route's `hexToRgb` throws a `TypeError` at `hex.replace`. The error handler then returns an error response, and no pass is built. The model takes every colour as a string, so this path is not modelled.
- **The barcode after `setBarcodes`:** `Pass.SetBarcodes` records the descriptor the route passes to `setBarcodes`. The library's own validation of that descriptor, and what it keeps afterwards, are not modelled.
- **Strings** are sequences of Unicode scalar values. Unpaired UTF-16 surrogates are not representable, and `Buffer.from` would write U+FFFD for them.
- **Readers are the strict ones.** The partner readers of the `data:` URI and of the query are strict decoders. Node's lenient base 64 decoder and the WHATWG U+FFFD replacement on ill-formed UTF-8 are not modelled.
- **vCard escaping and line folding** (RFC 2426) are not done by the code and not modelled: a field holding `;` or `,` is written verbatim.
- **VCard.Entry:** total beyond index 9 (it repeats the address entry). Only indices 0 to 9 are used.
