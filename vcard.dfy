/**
 * The vCard encoder of the pass generator (src/lib/utils/vcard.ts): a
 * vCard 3.0 block (RFC 2426) built line by line, with the optional
 * properties in a fixed order and the lines joined by the two characters
 * backslash and `n`; the same block as a `data:` URI (RFC 2397) carrying its
 * UTF-8 bytes in base 64; and a contact link whose query is a
 * `URLSearchParams` serialization.
 */
module VCard {
  import opened Wrappers
  import opened Js
  import opened Ordered
  import Utf8
  import Base64
  import FormUrlencoded

  /** The record fields the encoders read; "" stands for an absent field as well as an empty one. */
  datatype Contact = Contact(
    firstName: string, lastName: string, jobTitle: string, companyName: string,
    email: string, phone: string, website: string,
    linkedin: string, twitter: string, instagram: string, facebook: string,
    address: string, city: string, state: string, zipCode: string, country: string)

  /**
   * The property tags the builders write: name, parameters and colon. The
   * last four are the spellings of the pass route's own builder.
   */
  datatype Tag =
    | Title | Org | EmailWork | TelCell | UrlWork
    | UrlLinkedin | UrlTwitter | UrlInstagram | UrlFacebook | AdrWork
    | Email | Tel | Url | AdrWorkUpper

  function TagText(t: Tag): string {
    match t
    case Title => "TITLE:"
    case Org => "ORG:"
    case EmailWork => "EMAIL;type=INTERNET;type=WORK:"
    case TelCell => "TEL;type=CELL:"
    case UrlWork => "URL;type=WORK:"
    case UrlLinkedin => "URL;type=LINKEDIN:"
    case UrlTwitter => "URL;type=TWITTER:"
    case UrlInstagram => "URL;type=INSTAGRAM:"
    case UrlFacebook => "URL;type=FACEBOOK:"
    case AdrWork => "ADR;type=WORK:"
    case Email => "EMAIL:"
    case Tel => "TEL:"
    case Url => "URL:"
    case AdrWorkUpper => "ADR;TYPE=WORK:"
  }

  /** The position of a tag in push order; the route's spellings share the positions of the ones they replace. */
  function TagIndex(t: Tag): nat {
    match t
    case Title => 0
    case Org => 1
    case EmailWork => 2
    case TelCell => 3
    case UrlWork => 4
    case UrlLinkedin => 5
    case UrlTwitter => 6
    case UrlInstagram => 7
    case UrlFacebook => 8
    case AdrWork => 9
    case Email => 2
    case Tel => 3
    case Url => 4
    case AdrWorkUpper => 9
  }

  /** One content line: its tag and its value. */
  datatype Property = Property(tag: Tag, value: string)

  /** The two builders: the library's and the pass route's own copy, which spells four tags differently. */
  datatype Dialect = Library | Route

  /** The tag a builder writes: the route drops the type parameters of EMAIL, TEL and URL and upper-cases ADR's. */
  function Spell(d: Dialect, t: Tag): (r: Tag)
    ensures TagIndex(r) == TagIndex(t)
    ensures d == Route && r != t <==> d == Route && (t == EmailWork || t == TelCell || t == UrlWork || t == AdrWork)
  {
    match d
    case Library => t
    case Route =>
      match t
      case EmailWork => Email
      case TelCell => Tel
      case UrlWork => Url
      case AdrWork => AdrWorkUpper
      case _ => t
  }

  function Line(d: Dialect, p: Property): string {
    TagText(Spell(d, p.tag)) + p.value
  }

  /** The lines of a list of properties, in order. */
  function LinesOf(d: Dialect, ps: seq<Property>): (r: seq<string>)
    ensures |r| == |ps|
  {
    if ps == [] then [] else LinesOf(d, ps[..|ps| - 1]) + [Line(d, ps[|ps| - 1])]
  }

  /** The separator `join("\\n")` puts between lines: a backslash and an `n`, not a line feed. */
  const Separator: string := "\\n"

  /** The four lines every card starts with. */
  function Header(c: Contact): seq<string> {
    ["BEGIN:VCARD", "VERSION:3.0", "N:" + c.lastName + ";" + c.firstName + ";;;", "FN:" + c.firstName + " " + c.lastName]
  }

  /** The condition of the ADR line: some address component is present. */
  predicate HasAddress(c: Contact) {
    Truthy(c.address) || Truthy(c.city) || Truthy(c.state) || Truthy(c.zipCode) || Truthy(c.country)
  }

  /** The ADR value: post office box and extended address empty, then the five components. */
  function AdrValue(c: Contact): string {
    ";;" + Or(c.address, "") + ";" + Or(c.city, "") + ";" + Or(c.state, "") + ";" + Or(c.zipCode, "") + ";" + Or(c.country, "")
  }

  /** The k-th optional property in push order, with the condition under which it is pushed; the address from 9 on. */
  function Entry(c: Contact, k: nat): (e: (bool, Property))
    ensures k < 10 ==> TagIndex(e.1.tag) == k
  {
    if k == 0 then (Truthy(c.jobTitle), Property(Title, c.jobTitle))
    else if k == 1 then (Truthy(c.companyName), Property(Org, c.companyName))
    else if k == 2 then (Truthy(c.email), Property(EmailWork, c.email))
    else if k == 3 then (Truthy(c.phone), Property(TelCell, c.phone))
    else if k == 4 then (Truthy(c.website), Property(UrlWork, c.website))
    else if k == 5 then (Truthy(c.linkedin), Property(UrlLinkedin, c.linkedin))
    else if k == 6 then (Truthy(c.twitter), Property(UrlTwitter, c.twitter))
    else if k == 7 then (Truthy(c.instagram), Property(UrlInstagram, c.instagram))
    else if k == 8 then (Truthy(c.facebook), Property(UrlFacebook, c.facebook))
    else (HasAddress(c), Property(AdrWork, AdrValue(c)))
  }

  /** The first k entries of the table of optional properties. */
  function OptionalUpTo(c: Contact, k: nat): (t: seq<(bool, Property)>)
    ensures |t| == k
  {
    if k == 0 then [] else OptionalUpTo(c, k - 1) + [Entry(c, k - 1)]
  }

  /** The table of the ten optional properties, in push order. */
  function Optional(c: Contact): seq<(bool, Property)> {
    OptionalUpTo(c, 10)
  }

  /** Entry i of the table is the i-th optional property. */
  lemma {:induction false} OptionalAt(c: Contact, i: nat, k: nat)
    requires i < k
    ensures OptionalUpTo(c, k)[i] == Entry(c, i)
  {
    if i < k - 1 {
      OptionalAt(c, i, k - 1);
    }
  }

  /** The lines of the card: header, the optional properties present, the closing line. */
  function Lines(d: Dialect, c: Contact): seq<string> {
    Header(c) + LinesOf(d, Keep(Optional(c))) + ["END:VCARD"]
  }

  /** The text `generateVCard` returns. */
  function VCardText(d: Dialect, c: Contact): string {
    Join(Lines(d, c), Separator)
  }

  /** `if (present) lines.push(line)`: what a conditional push adds, one line or none. */
  function Pushed(present: bool, line: string): (r: seq<string>)
    ensures |r| == if present then 1 else 0
  {
    if present then [line] else []
  }

  /** Five entries considered one after the other, from entry k on. */
  lemma KeepFive(c: Contact, k: nat)
    ensures Keep(OptionalUpTo(c, k + 5))
         == Keep(OptionalUpTo(c, k)) + Pick(Entry(c, k)) + Pick(Entry(c, k + 1)) + Pick(Entry(c, k + 2))
          + Pick(Entry(c, k + 3)) + Pick(Entry(c, k + 4))
  {
    KeepSnoc(OptionalUpTo(c, k), Entry(c, k));
    KeepSnoc(OptionalUpTo(c, k + 1), Entry(c, k + 1));
    KeepSnoc(OptionalUpTo(c, k + 2), Entry(c, k + 2));
    KeepSnoc(OptionalUpTo(c, k + 3), Entry(c, k + 3));
    KeepSnoc(OptionalUpTo(c, k + 4), Entry(c, k + 4));
  }

  /** The properties of the card: what each of the ten entries contributes, in order. */
  lemma BodyKept(c: Contact)
    ensures Keep(Optional(c))
         == [] + Pick(Entry(c, 0)) + Pick(Entry(c, 1)) + Pick(Entry(c, 2)) + Pick(Entry(c, 3)) + Pick(Entry(c, 4))
          + Pick(Entry(c, 5)) + Pick(Entry(c, 6)) + Pick(Entry(c, 7)) + Pick(Entry(c, 8)) + Pick(Entry(c, 9))
  {
    assert Keep(OptionalUpTo(c, 5))
        == [] + Pick(Entry(c, 0)) + Pick(Entry(c, 1)) + Pick(Entry(c, 2)) + Pick(Entry(c, 3)) + Pick(Entry(c, 4)) by {
      KeepFive(c, 0);
    }
    assert Keep(OptionalUpTo(c, 10))
        == Keep(OptionalUpTo(c, 5)) + Pick(Entry(c, 5)) + Pick(Entry(c, 6)) + Pick(Entry(c, 7)) + Pick(Entry(c, 8)) + Pick(Entry(c, 9)) by {
      KeepFive(c, 5);
    }
  }

  /** After fixed lines, the properties entry e contributes add its line when its condition holds. */
  lemma LinesOfKept(d: Dialect, head: seq<string>, ps: seq<Property>, e: (bool, Property))
    ensures head + LinesOf(d, ps + Pick(e)) == head + LinesOf(d, ps) + Pushed(e.0, Line(d, e.1))
  {
    if e.0 {
      var after := ps + [e.1];
      assert after[..|ps|] == ps && after[|ps|] == e.1;
    } else {
      assert ps + [] == ps;
    }
  }

  /** The ten entries of the table, written out. */
  lemma Entries(c: Contact)
    ensures Entry(c, 0) == (Truthy(c.jobTitle), Property(Title, c.jobTitle))
    ensures Entry(c, 1) == (Truthy(c.companyName), Property(Org, c.companyName))
    ensures Entry(c, 2) == (Truthy(c.email), Property(EmailWork, c.email))
    ensures Entry(c, 3) == (Truthy(c.phone), Property(TelCell, c.phone))
    ensures Entry(c, 4) == (Truthy(c.website), Property(UrlWork, c.website))
    ensures Entry(c, 5) == (Truthy(c.linkedin), Property(UrlLinkedin, c.linkedin))
    ensures Entry(c, 6) == (Truthy(c.twitter), Property(UrlTwitter, c.twitter))
    ensures Entry(c, 7) == (Truthy(c.instagram), Property(UrlInstagram, c.instagram))
    ensures Entry(c, 8) == (Truthy(c.facebook), Property(UrlFacebook, c.facebook))
    ensures Entry(c, 9) == (HasAddress(c), Property(AdrWork, AdrValue(c)))
  {
  }

  /** After fixed lines, the lines of five entries' contributions, one after the other. */
  lemma LinesOfFive(d: Dialect, head: seq<string>, ps: seq<Property>,
                    e0: (bool, Property), e1: (bool, Property), e2: (bool, Property), e3: (bool, Property), e4: (bool, Property))
    ensures head + LinesOf(d, ps + Pick(e0) + Pick(e1) + Pick(e2) + Pick(e3) + Pick(e4))
         == head + LinesOf(d, ps) + Pushed(e0.0, Line(d, e0.1)) + Pushed(e1.0, Line(d, e1.1)) + Pushed(e2.0, Line(d, e2.1))
          + Pushed(e3.0, Line(d, e3.1)) + Pushed(e4.0, Line(d, e4.1))
  {
    LinesOfKept(d, head, ps, e0);
    LinesOfKept(d, head, ps + Pick(e0), e1);
    LinesOfKept(d, head, ps + Pick(e0) + Pick(e1), e2);
    LinesOfKept(d, head, ps + Pick(e0) + Pick(e1) + Pick(e2), e3);
    LinesOfKept(d, head, ps + Pick(e0) + Pick(e1) + Pick(e2) + Pick(e3), e4);
  }

  /** The lines of the card, entry by entry. */
  lemma LinesKept(d: Dialect, c: Contact)
    ensures Lines(d, c)
         == Header(c) + Pushed(Entry(c, 0).0, Line(d, Entry(c, 0).1)) + Pushed(Entry(c, 1).0, Line(d, Entry(c, 1).1)) + Pushed(Entry(c, 2).0, Line(d, Entry(c, 2).1)) + Pushed(Entry(c, 3).0, Line(d, Entry(c, 3).1)) + Pushed(Entry(c, 4).0, Line(d, Entry(c, 4).1))
          + Pushed(Entry(c, 5).0, Line(d, Entry(c, 5).1)) + Pushed(Entry(c, 6).0, Line(d, Entry(c, 6).1)) + Pushed(Entry(c, 7).0, Line(d, Entry(c, 7).1)) + Pushed(Entry(c, 8).0, Line(d, Entry(c, 8).1)) + Pushed(Entry(c, 9).0, Line(d, Entry(c, 9).1))
          + ["END:VCARD"]
  {
    BodyKept(c);
    var ps: seq<Property> := [];
    var ps5 := ps + Pick(Entry(c, 0)) + Pick(Entry(c, 1)) + Pick(Entry(c, 2)) + Pick(Entry(c, 3)) + Pick(Entry(c, 4));
    assert Header(c) + LinesOf(d, ps) == Header(c);
    LinesOfFive(d, Header(c), ps, Entry(c, 0), Entry(c, 1), Entry(c, 2), Entry(c, 3), Entry(c, 4));
    LinesOfFive(d, Header(c), ps5, Entry(c, 5), Entry(c, 6), Entry(c, 7), Entry(c, 8), Entry(c, 9));
  }

  /** The pushes of the ten entries, written out. */
  lemma EntriesPushed(d: Dialect, c: Contact, head: seq<string>)
    ensures head + Pushed(Entry(c, 0).0, Line(d, Entry(c, 0).1)) + Pushed(Entry(c, 1).0, Line(d, Entry(c, 1).1)) + Pushed(Entry(c, 2).0, Line(d, Entry(c, 2).1)) + Pushed(Entry(c, 3).0, Line(d, Entry(c, 3).1)) + Pushed(Entry(c, 4).0, Line(d, Entry(c, 4).1))
          + Pushed(Entry(c, 5).0, Line(d, Entry(c, 5).1)) + Pushed(Entry(c, 6).0, Line(d, Entry(c, 6).1)) + Pushed(Entry(c, 7).0, Line(d, Entry(c, 7).1)) + Pushed(Entry(c, 8).0, Line(d, Entry(c, 8).1)) + Pushed(Entry(c, 9).0, Line(d, Entry(c, 9).1))
         == head
          + Pushed(Truthy(c.jobTitle), Line(d, Property(Title, c.jobTitle)))
          + Pushed(Truthy(c.companyName), Line(d, Property(Org, c.companyName)))
          + Pushed(Truthy(c.email), Line(d, Property(EmailWork, c.email)))
          + Pushed(Truthy(c.phone), Line(d, Property(TelCell, c.phone)))
          + Pushed(Truthy(c.website), Line(d, Property(UrlWork, c.website)))
          + Pushed(Truthy(c.linkedin), Line(d, Property(UrlLinkedin, c.linkedin)))
          + Pushed(Truthy(c.twitter), Line(d, Property(UrlTwitter, c.twitter)))
          + Pushed(Truthy(c.instagram), Line(d, Property(UrlInstagram, c.instagram)))
          + Pushed(Truthy(c.facebook), Line(d, Property(UrlFacebook, c.facebook)))
          + Pushed(HasAddress(c), Line(d, Property(AdrWork, AdrValue(c))))
  {
    Entries(c);
  }

  /** The lines of the card as the run of conditional pushes writes them. */
  lemma LinesPushed(d: Dialect, c: Contact)
    ensures Lines(d, c)
         == Header(c)
          + Pushed(Truthy(c.jobTitle), Line(d, Property(Title, c.jobTitle)))
          + Pushed(Truthy(c.companyName), Line(d, Property(Org, c.companyName)))
          + Pushed(Truthy(c.email), Line(d, Property(EmailWork, c.email)))
          + Pushed(Truthy(c.phone), Line(d, Property(TelCell, c.phone)))
          + Pushed(Truthy(c.website), Line(d, Property(UrlWork, c.website)))
          + Pushed(Truthy(c.linkedin), Line(d, Property(UrlLinkedin, c.linkedin)))
          + Pushed(Truthy(c.twitter), Line(d, Property(UrlTwitter, c.twitter)))
          + Pushed(Truthy(c.instagram), Line(d, Property(UrlInstagram, c.instagram)))
          + Pushed(Truthy(c.facebook), Line(d, Property(UrlFacebook, c.facebook)))
          + Pushed(HasAddress(c), Line(d, Property(AdrWork, AdrValue(c))))
          + ["END:VCARD"]
  {
    LinesKept(d, c);
    EntriesPushed(d, c, Header(c));
  }

  /**
   * The builder both copies of `generateVCard` run: the header, one
   * conditional push per optional property, the closing line, joined.
   */
  method Build(d: Dialect, data: Contact) returns (text: string)
    ensures text == VCardText(d, data)
  {
    var vCard := ["BEGIN:VCARD", "VERSION:3.0", "N:" + data.lastName + ";" + data.firstName + ";;;", "FN:" + data.firstName + " " + data.lastName];

    vCard := vCard + Pushed(Truthy(data.jobTitle), Line(d, Property(Title, data.jobTitle)));
    vCard := vCard + Pushed(Truthy(data.companyName), Line(d, Property(Org, data.companyName)));

    vCard := vCard + Pushed(Truthy(data.email), Line(d, Property(EmailWork, data.email)));
    vCard := vCard + Pushed(Truthy(data.phone), Line(d, Property(TelCell, data.phone)));
    vCard := vCard + Pushed(Truthy(data.website), Line(d, Property(UrlWork, data.website)));

    vCard := vCard + Pushed(Truthy(data.linkedin), Line(d, Property(UrlLinkedin, data.linkedin)));
    vCard := vCard + Pushed(Truthy(data.twitter), Line(d, Property(UrlTwitter, data.twitter)));
    vCard := vCard + Pushed(Truthy(data.instagram), Line(d, Property(UrlInstagram, data.instagram)));
    vCard := vCard + Pushed(Truthy(data.facebook), Line(d, Property(UrlFacebook, data.facebook)));

    var hasAddress := Truthy(data.address) || Truthy(data.city) || Truthy(data.state) || Truthy(data.zipCode) || Truthy(data.country);
    vCard := vCard + Pushed(hasAddress, Line(d, Property(AdrWork, AdrValue(data))));

    vCard := vCard + ["END:VCARD"];
    assert vCard == Lines(d, data) by {
      LinesPushed(d, data);
    }
    text := Join(vCard, "\\n");
  }

  /** `generateVCard` of the library. */
  method GenerateVCard(data: Contact) returns (text: string)
    ensures text == VCardText(Library, data)
  {
    text := Build(Library, data);
  }

  // Properties of the card

  /** Entry i of the table is the i-th optional property of the card. */
  lemma OptionalEntry(c: Contact, i: nat)
    requires i < 10
    ensures i < |Optional(c)| && Optional(c)[i] == Entry(c, i)
  {
    OptionalAt(c, i, 10);
  }

  /** The line of the j-th property of a list is the j-th of its lines. */
  lemma {:induction false} LinesOfAt(d: Dialect, ps: seq<Property>, j: nat)
    requires j < |ps|
    ensures LinesOf(d, ps)[j] == Line(d, ps[j])
  {
    if j < |ps| - 1 {
      LinesOfAt(d, ps[..|ps| - 1], j);
    }
  }

  function Count(b: bool): nat {
    if b then 1 else 0
  }

  /** The card opens with its four fixed lines and closes with END:VCARD. */
  lemma LinesFrame(d: Dialect, c: Contact)
    ensures |Lines(d, c)| >= 5
    ensures Lines(d, c)[..4] == Header(c)
    ensures Lines(d, c)[|Lines(d, c)| - 1] == "END:VCARD"
  {
    var l := Lines(d, c);
    assert l == Header(c) + (LinesOf(d, Keep(Optional(c))) + ["END:VCARD"]);
  }

  /**
   * Between the fixed lines there is one line per optional field present and
   * one for the address, so a card has 5 to 15 lines.
   */
  lemma LineCount(d: Dialect, c: Contact)
    ensures |Lines(d, c)|
         == 5 + Count(Truthy(c.jobTitle)) + Count(Truthy(c.companyName))
          + Count(Truthy(c.email)) + Count(Truthy(c.phone)) + Count(Truthy(c.website))
          + Count(Truthy(c.linkedin)) + Count(Truthy(c.twitter)) + Count(Truthy(c.instagram)) + Count(Truthy(c.facebook))
          + Count(HasAddress(c))
    ensures 5 <= |Lines(d, c)| <= 15
  {
    LinesPushed(d, c);
  }

  /** The properties between the header and END:VCARD, in order. */
  function Body(c: Contact): seq<Property> {
    Keep(Optional(c))
  }

  /** Each optional property is on the card if and only if its condition holds. */
  lemma OptionalPresent(c: Contact, i: nat)
    requires i < 10
    ensures Entry(c, i).1 in Body(c) <==> Entry(c, i).0
  {
    var t := Optional(c);
    KeepMember(t, Entry(c, i).1);
    OptionalEntry(c, i);
    forall j | 0 <= j < |t| && t[j].1 == Entry(c, i).1
      ensures j == i
    {
      OptionalEntry(c, j);
    }
  }

  /**
   * A present optional property is written on line 4 + (the number of present
   * properties before it); so the lines of the present properties follow the
   * table order.
   */
  lemma OptionalLine(d: Dialect, c: Contact, i: nat)
    requires i < 10 && Entry(c, i).0
    ensures 4 + Rank(Optional(c), i) < |Lines(d, c)| - 1
    ensures Lines(d, c)[4 + Rank(Optional(c), i)] == Line(d, Entry(c, i).1)
  {
    var t := Optional(c);
    OptionalEntry(c, i);
    KeepAt(t, i);
    LinesOfAt(d, Keep(t), Rank(t, i));
    var l := Lines(d, c);
    assert l[4 + Rank(t, i)] == LinesOf(d, Keep(t))[Rank(t, i)];
  }

  /** Of two present optional properties, the earlier in the table comes first on the card. */
  lemma OptionalOrder(c: Contact, i: nat, j: nat)
    requires i < j < 10 && Entry(c, i).0
    ensures Rank(Optional(c), i) < Rank(Optional(c), j)
  {
    OptionalEntry(c, i);
    RankIncreasing(Optional(c), i, j);
  }

  /** A line between the header and END:VCARD is the line of the property at that place in the body. */
  lemma BodyLineAt(d: Dialect, c: Contact, k: nat)
    requires 4 <= k < |Lines(d, c)| - 1
    ensures k - 4 < |Body(c)| && Lines(d, c)[k] == Line(d, Body(c)[k - 4])
  {
    var h, ls := Header(c), LinesOf(d, Body(c));
    assert |h| == 4;
    IndexMiddle(h, ls, ["END:VCARD"], k);
    LinesOfAt(d, Body(c), k - 4);
  }

  /** Indexing the middle part of a three-part concatenation. */
  lemma IndexMiddle<T>(a: seq<T>, m: seq<T>, z: seq<T>, k: nat)
    requires |a| <= k < |a| + |m|
    ensures (a + m + z)[k] == m[k - |a|]
  {
  }

  /** A property in the body is the property of a present entry. */
  lemma BodyEntry(c: Contact, p: Property)
    requires p in Body(c)
    ensures exists i :: 0 <= i < 10 && Entry(c, i).0 && Entry(c, i).1 == p
  {
    var t := Optional(c);
    KeepMember(t, p);
    var i :| 0 <= i < |t| && t[i].0 && t[i].1 == p;
    OptionalEntry(c, i);
  }

  /** Every line between the header and END:VCARD is the line of a present optional property. */
  lemma BodyLine(d: Dialect, c: Contact, k: nat)
    requires 4 <= k < |Lines(d, c)| - 1
    ensures exists i :: 0 <= i < 10 && Entry(c, i).0 && Lines(d, c)[k] == Line(d, Entry(c, i).1)
  {
    BodyLineAt(d, c, k);
    var p := Body(c)[k - 4];
    BodyEntry(c, p);
    var i :| 0 <= i < 10 && Entry(c, i).0 && Entry(c, i).1 == p;
    assert Lines(d, c)[k] == Line(d, Entry(c, i).1);
  }

  /** A record with nothing but its two names gives the four fixed lines and END:VCARD. */
  lemma NamesOnly(d: Dialect, c: Contact)
    requires c.jobTitle == c.companyName == c.email == c.phone == c.website == ""
    requires c.linkedin == c.twitter == c.instagram == c.facebook == ""
    requires c.address == c.city == c.state == c.zipCode == c.country == ""
    ensures Lines(d, c) == Header(c) + ["END:VCARD"]
  {
    forall i | 0 <= i < 10
      ensures !Optional(c)[i].0
    {
      OptionalEntry(c, i);
    }
    KeepEmpty(Optional(c));
    assert Header(c) + [] == Header(c);
  }

  /** The components of the ADR value, absent ones as "". */
  function AdrParts(c: Contact): seq<string> {
    ["", "", Or(c.address, ""), Or(c.city, ""), Or(c.state, ""), Or(c.zipCode, ""), Or(c.country, "")]
  }

  /** The ADR template is the join of its seven components by `;`. */
  lemma AdrJoin(a: string, b: string, d: string, e: string, f: string)
    ensures ";;" + a + ";" + b + ";" + d + ";" + e + ";" + f == Join(["", "", a, b, d, e, f], ";")
  {
    var t5 := [e] + [f];
    JoinCons(e, [f], ";");
    var t4 := [d] + t5;
    JoinCons(d, t5, ";");
    var t3 := [b] + t4;
    JoinCons(b, t4, ";");
    var t2 := [a] + t3;
    JoinCons(a, t3, ";");
    var t1 := [""] + t2;
    JoinCons("", t2, ";");
    var t0 := [""] + t1;
    JoinCons("", t1, ";");
    assert t0 == ["", "", a, b, d, e, f];
  }

  /**
   * The ADR value has the seven positions of the ADR property: empty post
   * office box and extended address, then street, locality, region, postal
   * code and country, as long as no component holds a `;` itself.
   */
  lemma AdrPositions(c: Contact)
    requires ';' !in c.address && ';' !in c.city && ';' !in c.state && ';' !in c.zipCode && ';' !in c.country
    ensures Split(AdrValue(c), ';') == AdrParts(c)
    ensures |Split(AdrValue(c), ';')| == 7
  {
    var xs := AdrParts(c);
    AdrJoin(xs[2], xs[3], xs[4], xs[5], xs[6]);
    SplitJoin(xs, ';');
  }

  /** No field of the record holds the character ch. */
  predicate Free(c: Contact, ch: char) {
    ch !in c.firstName && ch !in c.lastName && ch !in c.jobTitle && ch !in c.companyName
    && ch !in c.email && ch !in c.phone && ch !in c.website
    && ch !in c.linkedin && ch !in c.twitter && ch !in c.instagram && ch !in c.facebook
    && ch !in c.address && ch !in c.city && ch !in c.state && ch !in c.zipCode && ch !in c.country
  }

  /** No line of the list holds the character ch. */
  predicate LinesFree(ls: seq<string>, ch: char) {
    forall i :: 0 <= i < |ls| ==> ch !in ls[i]
  }

  lemma LinesFreeAppend(a: seq<string>, b: seq<string>, ch: char)
    requires LinesFree(a, ch) && LinesFree(b, ch)
    ensures LinesFree(a + b, ch)
  {
    forall i | 0 <= i < |a + b|
      ensures ch !in (a + b)[i]
    {
      if i >= |a| {
        assert (a + b)[i] == b[i - |a|];
      }
    }
  }

  /** No tag holds a line feed. */
  lemma TagFree(t: Tag)
    ensures '\n' !in TagText(t)
  {
  }

  lemma AdrFree(c: Contact)
    requires Free(c, '\n')
    ensures '\n' !in AdrValue(c)
  {
    assert '\n' !in Or(c.address, "") && '\n' !in Or(c.city, "") && '\n' !in Or(c.state, "");
    assert '\n' !in Or(c.zipCode, "") && '\n' !in Or(c.country, "");
  }

  /** The line of an optional property holds no line feed the record does not hold. */
  lemma EntryLineFree(d: Dialect, c: Contact, k: nat)
    requires Free(c, '\n')
    ensures '\n' !in Line(d, Entry(c, k).1)
  {
    var p := Entry(c, k).1;
    TagFree(Spell(d, p.tag));
    if k >= 9 {
      AdrFree(c);
    }
  }

  /**
   * The lines are joined by a backslash and an `n`: the encoder itself puts no
   * line feed in the text, so the text has none unless a field has one.
   */
  lemma TextFree(d: Dialect, c: Contact)
    requires Free(c, '\n')
    ensures '\n' !in VCardText(d, c)
  {
    var l := Lines(d, c);
    LinesFrame(d, c);
    forall k | 0 <= k < |l|
      ensures '\n' !in l[k]
    {
      if k < 4 {
        assert l[k] == l[..4][k];
      } else if k < |l| - 1 {
        BodyLine(d, c, k);
        var i :| 0 <= i < 10 && Entry(c, i).0 && l[k] == Line(d, Entry(c, i).1);
        EntryLineFree(d, c, i);
      }
    }
    JoinExcludes(l, Separator, '\n');
  }

  // The data: URI

  /** The media type and encoding a `data:` URI of a vCard starts with (RFC 2397). */
  const DataPrefix: string := "data:text/vcard;base64,"

  /** `generateVCardUri`: the card's UTF-8 bytes, base 64 encoded, after the `data:` prefix. */
  function VCardUri(c: Contact): string {
    DataPrefix + Base64.Encode(Utf8.Encode(VCardText(Library, c)))
  }

  /** A reader of such URIs: the prefix, then base 64 text of UTF-8 bytes. */
  function ReadVCardUri(uri: string): Option<string> {
    if !StartsWith(uri, DataPrefix) then None
    else
      match Base64.Decode(uri[|DataPrefix|..])
      case None => None
      case Some(bytes) => Utf8.Decode(bytes)
  }

  /** The URI carries the card text itself: reading it back gives the text `generateVCard` returns. */
  lemma VCardUriRoundTrip(c: Contact)
    ensures StartsWith(VCardUri(c), DataPrefix)
    ensures ReadVCardUri(VCardUri(c)) == Some(VCardText(Library, c))
  {
    var bytes := Utf8.Encode(VCardText(Library, c));
    var uri := VCardUri(c);
    assert uri[..|DataPrefix|] == DataPrefix && uri[|DataPrefix|..] == Base64.Encode(bytes);
    Base64.DecodeEncode(bytes);
    Utf8.DecodeEncode(VCardText(Library, c));
  }

  // The contact link

  /** The page the contact link points at. */
  const ContactPrefix: string := "https://contact.example.com/?"

  /** The table of the query parameters, in append order, with the condition under which each is appended. */
  function ContactParams(c: Contact): seq<(bool, (string, string))> {
    [(Truthy(c.firstName), ("given", c.firstName)), (Truthy(c.lastName), ("family", c.lastName)),
     (Truthy(c.email), ("email", c.email)), (Truthy(c.phone), ("phone", c.phone))]
  }

  /** The pairs of the query: the parameters whose field is present. */
  function ContactQuery(c: Contact): seq<(string, string)> {
    Keep(ContactParams(c))
  }

  /** The contact link: the page, then the serialized query. */
  function ContactUri(c: Contact): string {
    ContactPrefix + FormUrlencoded.Serialize(ContactQuery(c))
  }

  /** `generateContactUri`: a `URLSearchParams` with one `append` per present field, serialized after the page. */
  method GenerateContactUri(data: Contact) returns (uri: string)
    ensures uri == ContactUri(data)
  {
    var params := new FormUrlencoded.SearchParams();
    if Truthy(data.firstName) {
      params.Append("given", data.firstName);
    }
    if Truthy(data.lastName) {
      params.Append("family", data.lastName);
    }
    if Truthy(data.email) {
      params.Append("email", data.email);
    }
    if Truthy(data.phone) {
      params.Append("phone", data.phone);
    }
    assert params.list == ContactQuery(data) by {
      ContactQueryPushed(data);
    }
    uri := ContactPrefix + params.ToString();
  }

  /** The query as the run of conditional appends builds it. */
  lemma ContactQueryPushed(c: Contact)
    ensures ContactQuery(c)
         == [] + (if Truthy(c.firstName) then [("given", c.firstName)] else [])
               + (if Truthy(c.lastName) then [("family", c.lastName)] else [])
               + (if Truthy(c.email) then [("email", c.email)] else [])
               + (if Truthy(c.phone) then [("phone", c.phone)] else [])
  {
    var t := ContactParams(c);
    assert t[..3][..2][..1][..0] == [];
    KeepSnoc(t[..3][..2][..1][..0], t[0]);
    assert t[..3][..2][..1] == t[..3][..2][..1][..0] + [t[0]];
    KeepSnoc(t[..3][..2][..1], t[1]);
    assert t[..3][..2] == t[..3][..2][..1] + [t[1]];
    KeepSnoc(t[..3][..2], t[2]);
    assert t[..3] == t[..3][..2] + [t[2]];
    KeepSnoc(t[..3], t[3]);
    assert t == t[..3] + [t[3]];
  }

  /** Parsing the query of the link gives back exactly the present parameters, in order. */
  lemma ContactUriRoundTrip(c: Contact)
    ensures StartsWith(ContactUri(c), ContactPrefix)
    ensures FormUrlencoded.Parse(ContactUri(c)[|ContactPrefix|..]) == Some(ContactQuery(c))
  {
    var uri := ContactUri(c);
    assert uri[..|ContactPrefix|] == ContactPrefix;
    assert uri[|ContactPrefix|..] == FormUrlencoded.Serialize(ContactQuery(c));
    FormUrlencoded.ParseSerialize(ContactQuery(c));
  }

  /** Each parameter is in the query if and only if its field is present. */
  lemma ContactParamPresent(c: Contact, i: nat)
    requires i < 4
    ensures ContactParams(c)[i].1 in ContactQuery(c) <==> ContactParams(c)[i].0
  {
    var t := ContactParams(c);
    KeepMember(t, t[i].1);
  }

  /** The present parameters keep the order given, family, email, phone. */
  lemma ContactParamOrder(c: Contact, i: nat, j: nat)
    requires i < j < 4 && ContactParams(c)[i].0 && ContactParams(c)[j].0
    ensures Rank(ContactParams(c), i) < Rank(ContactParams(c), j) < |ContactQuery(c)|
    ensures ContactQuery(c)[Rank(ContactParams(c), i)] == ContactParams(c)[i].1
    ensures ContactQuery(c)[Rank(ContactParams(c), j)] == ContactParams(c)[j].1
  {
    var t := ContactParams(c);
    RankIncreasing(t, i, j);
    KeepAt(t, i);
    KeepAt(t, j);
  }
}
