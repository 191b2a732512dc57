/**
 * The business-card pass route (src/app/api/business-card/generate-pass/route.ts):
 * its own colour converter and vCard builder, and the assembly of the pass
 * from a request: the pass properties, the four field lists, the barcode.
 * Authentication, the database record, the certificates and the signed
 * archive are outside the model; the record's identifier is a parameter.
 */
module BusinessCardRoute {
  import opened Wrappers
  import opened Js
  import opened Ordered
  import Color
  import opened VCard

  // Colours

  /**
   * The route's `hexToRgb`: the first `#` goes, then three `parseInt`s of
   * the substrings at 0, 2 and 4, with no check of the input. Wherever the
   * validating converter of the library accepts a colour, the two agree.
   */
  function HexToRgb(hex: string): (r: string)
    ensures Color.HexToRgb(hex).Ok? ==> r == Color.HexToRgb(hex).value
  {
    var h := RemoveFirst(hex, '#');
    var r := Color.RgbText(Color.ChannelOf(h, 0), Color.ChannelOf(h, 1), Color.ChannelOf(h, 2));
    if Color.IsSixHexDigits(h) then
      Color.RgbTextOfSixHex(h);
      r
    else r
  }

  /** Fewer than five characters leave the third substring empty, and `parseInt` of "" is `NaN`. */
  lemma ThirdChannelShort(h: string)
    requires |h| <= 4
    ensures Color.ChannelOf(h, 2) == None
  {
    assert Substring(h, 4, 6) == "";
  }

  lemma RgbTextNaN(r: Option<int>, g: Option<int>)
    ensures EndsWith(Color.RgbText(r, g, None), "NaN)")
  {
    var x := "rgb(" + NumberToString(r, 10) + ", " + NumberToString(g, 10) + ", ";
    assert Color.RgbText(r, g, None) == x + "NaN)";
  }

  /**
   * Where the library reports an invalid colour because fewer than five
   * characters remain, the route still writes a colour, whose blue channel
   * is `NaN`.
   */
  lemma HexToRgbShort(hex: string)
    requires |RemoveFirst(hex, '#')| <= 4
    ensures Color.HexToRgb(hex).Err?
    ensures EndsWith(HexToRgb(hex), "NaN)")
  {
    var h := RemoveFirst(hex, '#');
    ThirdChannelShort(h);
    RgbTextNaN(Color.ChannelOf(h, 0), Color.ChannelOf(h, 1));
  }

  // The route's vCard

  /** The route's own `generateVCard`: the library's builder with the route's tag spellings. */
  method GenerateVCard(data: Contact) returns (text: string)
    ensures text == VCardText(Route, data)
  {
    text := Build(Route, data);
  }

  /**
   * The route's card has the library's lines in the library's order: the
   * fixed lines are the same, and each line between them carries the same
   * property, spelled by the route's builder.
   */
  lemma RouteLines(c: Contact, k: nat)
    requires k < |Lines(Library, c)|
    ensures |Lines(Route, c)| == |Lines(Library, c)|
    ensures k < 4 || k == |Lines(Library, c)| - 1 ==> Lines(Route, c)[k] == Lines(Library, c)[k]
    ensures 4 <= k < |Lines(Library, c)| - 1 ==>
              Lines(Library, c)[k] == Line(Library, Body(c)[k - 4]) && Lines(Route, c)[k] == Line(Route, Body(c)[k - 4])
  {
    var b := Body(c);
    if 4 <= k < |Lines(Library, c)| - 1 {
      LinesOfAt(Library, b, k - 4);
      LinesOfAt(Route, b, k - 4);
    }
  }

  // The pass

  /** One field of a pass: its key, its label (`label`) and its value. */
  datatype Field = Field(key: string, labelText: string, value: string)

  /** The barcode of a pass. */
  datatype Barcode = Barcode(message: string, format: string, messageEncoding: string)

  /** The pass properties the route gives `PKPass.from`. */
  datatype Props = Props(
    formatVersion: nat, passTypeIdentifier: string, serialNumber: string, teamIdentifier: string,
    organizationName: string, description: string, logoText: string,
    foregroundColor: string, backgroundColor: string, labelColor: string)

  /** What a pass holds once assembled: its properties, its four field lists and its barcodes. */
  datatype Content = Content(
    props: Props, primaryFields: seq<Field>, secondaryFields: seq<Field>,
    auxiliaryFields: seq<Field>, backFields: seq<Field>, barcodes: seq<Barcode>)

  /** The request body the route reads: the card's fields, three colours and the barcode settings. */
  datatype Request = Request(
    contact: Contact, foregroundColor: string, backgroundColor: string, labelColor: string,
    barcodeMessage: string, barcodeFormat: string)

  /** The pass object under construction: properties, field lists and barcodes, all updated in place. */
  class Pass {
    var props: Props
    var primaryFields: seq<Field>
    var secondaryFields: seq<Field>
    var auxiliaryFields: seq<Field>
    var backFields: seq<Field>
    var barcodes: seq<Barcode>

    /** `PKPass.from`: the given properties, no fields, no barcode. */
    constructor (props: Props)
      ensures this.props == props
      ensures primaryFields == secondaryFields == auxiliaryFields == backFields == []
      ensures barcodes == []
    {
      this.props := props;
      primaryFields, secondaryFields, auxiliaryFields, backFields := [], [], [], [];
      barcodes := [];
    }

    /** `pass.primaryFields.push(f)`: f goes at the end of that list, and nothing else changes. */
    method PushPrimary(f: Field)
      modifies this
      ensures primaryFields == old(primaryFields) + [f]
      ensures props == old(props) && secondaryFields == old(secondaryFields) && auxiliaryFields == old(auxiliaryFields)
      ensures backFields == old(backFields) && barcodes == old(barcodes)
    {
      primaryFields := primaryFields + [f];
    }

    /** `pass.secondaryFields.push(f)`. */
    method PushSecondary(f: Field)
      modifies this
      ensures secondaryFields == old(secondaryFields) + [f]
      ensures props == old(props) && primaryFields == old(primaryFields) && auxiliaryFields == old(auxiliaryFields)
      ensures backFields == old(backFields) && barcodes == old(barcodes)
    {
      secondaryFields := secondaryFields + [f];
    }

    /** `pass.auxiliaryFields.push(f)`. */
    method PushAuxiliary(f: Field)
      modifies this
      ensures auxiliaryFields == old(auxiliaryFields) + [f]
      ensures props == old(props) && primaryFields == old(primaryFields) && secondaryFields == old(secondaryFields)
      ensures backFields == old(backFields) && barcodes == old(barcodes)
    {
      auxiliaryFields := auxiliaryFields + [f];
    }

    /** `pass.backFields.push(f)`. */
    method PushBack(f: Field)
      modifies this
      ensures backFields == old(backFields) + [f]
      ensures props == old(props) && primaryFields == old(primaryFields) && secondaryFields == old(secondaryFields)
      ensures auxiliaryFields == old(auxiliaryFields) && barcodes == old(barcodes)
    {
      backFields := backFields + [f];
    }

    /** `pass.setBarcodes(b)`: b becomes the only barcode; the fields stay. */
    method SetBarcodes(b: Barcode)
      modifies this
      ensures barcodes == [b]
      ensures props == old(props) && primaryFields == old(primaryFields) && secondaryFields == old(secondaryFields)
      ensures auxiliaryFields == old(auxiliaryFields) && backFields == old(backFields)
    {
      barcodes := [b];
    }

    /** What the pass holds now. */
    function Contents(): Content
      reads this
    {
      Content(props, primaryFields, secondaryFields, auxiliaryFields, backFields, barcodes)
    }
  }

  /** The fields the route writes, each with its fixed key and label. */
  datatype FieldKind = NameField | JobField | CompanyField | EmailField | PhoneField | ContactInfoField | SocialMediaField | AddressField

  /** The key of a field kind. */
  function KeyOf(k: FieldKind): string {
    match k
    case NameField => "name"
    case JobField => "job"
    case CompanyField => "company"
    case EmailField => "email"
    case PhoneField => "phone"
    case ContactInfoField => "contactInfo"
    case SocialMediaField => "socialMedia"
    case AddressField => "address"
  }

  /** The label of a field kind, as the pass shows it. */
  function LabelOf(k: FieldKind): string {
    match k
    case NameField => "Nombre"
    case JobField => "Cargo"
    case CompanyField => "Empresa"
    case EmailField => "Email"
    case PhoneField => "Teléfono"
    case ContactInfoField => "Contacto"
    case SocialMediaField => "Redes Sociales"
    case AddressField => "Dirección"
  }

  /** The field of a kind with a value. */
  function FieldOf(k: FieldKind, value: string): (f: Field)
    ensures f.key == KeyOf(k) && f.value == value
  {
    Field(KeyOf(k), LabelOf(k), value)
  }

  /** No two kinds share a key, so a field's key tells its kind. */
  lemma KeysDistinct(k: FieldKind, j: FieldKind)
    ensures KeyOf(k) == KeyOf(j) <==> k == j
  {
    if k != j {
      var x, y := KeyOf(k), KeyOf(j);
      assert |x| != |y| || x[0] != y[0];
    }
  }

  /** Whether a list holds a field of a kind. */
  predicate HasField(fs: seq<Field>, k: FieldKind) {
    exists f :: f in fs && f.key == KeyOf(k)
  }

  const FormatVersion: nat := 1
  const PassTypeIdentifier: string := "pass.com.v1.bounti"
  const TeamIdentifier: string := "P2247QRL75"
  /** The organization name of a card without a company. */
  const DefaultOrganization: string := "Tarjeta Personal"
  const MessageEncoding: string := "utf-8"
  /** What `join(", ")` puts between the address parts. */
  const AddressSeparator: string := ", "

  function FullName(c: Contact): string {
    c.firstName + " " + c.lastName
  }

  function Description(c: Contact): string {
    "Business Card de " + c.firstName + " " + c.lastName + " - YaVendió"
  }

  /** The pass properties: fixed identifiers, the record's identifier, names with fallbacks, the three colours converted. */
  function PropsOf(req: Request, id: string): Props {
    var c := req.contact;
    Props(FormatVersion, PassTypeIdentifier, id, TeamIdentifier,
      Or(c.companyName, DefaultOrganization), Description(c), Or(c.companyName, FullName(c)),
      HexToRgb(req.foregroundColor), HexToRgb(req.backgroundColor), HexToRgb(req.labelColor))
  }

  /** The one primary field: the full name. */
  function PrimaryFields(c: Contact): seq<Field> {
    [FieldOf(NameField, FullName(c))]
  }

  /** The secondary fields in push order, each with the condition under which it is pushed. */
  function SecondaryTable(c: Contact): seq<(bool, Field)> {
    [(Truthy(c.jobTitle), FieldOf(JobField, c.jobTitle)), (Truthy(c.companyName), FieldOf(CompanyField, c.companyName))]
  }

  function SecondaryFields(c: Contact): seq<Field> {
    Keep(SecondaryTable(c))
  }

  /** The auxiliary fields in push order, each with the condition under which it is pushed. */
  function AuxiliaryTable(c: Contact): seq<(bool, Field)> {
    [(Truthy(c.email), FieldOf(EmailField, c.email)), (Truthy(c.phone), FieldOf(PhoneField, c.phone))]
  }

  function AuxiliaryFields(c: Contact): seq<Field> {
    Keep(AuxiliaryTable(c))
  }

  /** The value of the contact back field: the e-mail, then the phone and the website each after a separator. */
  function ContactInfo(c: Contact): string {
    Or(c.email, "") + (if Truthy(c.phone) then Separator + c.phone else "") + (if Truthy(c.website) then Separator + c.website else "")
  }

  /** The three parts the contact back field is made of, each with its condition. */
  function ContactParts(c: Contact): seq<(bool, string)> {
    [(Truthy(c.email), c.email), (Truthy(c.phone), c.phone), (Truthy(c.website), c.website)]
  }

  /** The social networks of the back of the pass. */
  datatype Network = LinkedIn | Twitter | Instagram | Facebook

  /** The label a social network line starts with. */
  function NetworkLabel(n: Network): string {
    match n
    case LinkedIn => "LinkedIn: "
    case Twitter => "Twitter: "
    case Instagram => "Instagram: "
    case Facebook => "Facebook: "
  }

  /** One social network line: the network's label, then the handle or address. */
  function SocialLine(n: Network, v: string): string {
    NetworkLabel(n) + v
  }

  /** The social network lines in push order, each with the condition under which it is pushed. */
  function SocialTable(c: Contact): seq<(bool, string)> {
    [(Truthy(c.linkedin), SocialLine(LinkedIn, c.linkedin)), (Truthy(c.twitter), SocialLine(Twitter, c.twitter)),
     (Truthy(c.instagram), SocialLine(Instagram, c.instagram)), (Truthy(c.facebook), SocialLine(Facebook, c.facebook))]
  }

  function SocialNetworks(c: Contact): seq<string> {
    Keep(SocialTable(c))
  }

  /** What the address filter keeps: a part that is present and not only white space. */
  predicate NonBlank(s: string) {
    Truthy(s) && |Trim(s)| > 0
  }

  /** The five address parts, each with the filter's verdict on it. */
  function AddressTable(c: Contact): seq<(bool, string)> {
    [(NonBlank(c.address), c.address), (NonBlank(c.city), c.city), (NonBlank(c.state), c.state),
     (NonBlank(c.zipCode), c.zipCode), (NonBlank(c.country), c.country)]
  }

  /** `[address, city, state, zipCode, country].filter(part => part && part.trim().length > 0)`. */
  function AddressParts(c: Contact): seq<string> {
    Keep(AddressTable(c))
  }

  /** Whether the address back field is pushed: the vCard's address condition, and a part left by the filter. */
  predicate HasAddressField(c: Contact) {
    HasAddress(c) && |AddressParts(c)| > 0
  }

  /** The back fields: the contact field, then the social networks and the address when there are any. */
  function BackFields(c: Contact): seq<Field> {
    [FieldOf(ContactInfoField, ContactInfo(c))]
      + (if |SocialNetworks(c)| > 0 then [FieldOf(SocialMediaField, Join(SocialNetworks(c), Separator))] else [])
      + (if HasAddressField(c) then [FieldOf(AddressField, Join(AddressParts(c), AddressSeparator))] else [])
  }

  /** The barcode: the request's message, or else the route's vCard, in UTF-8. */
  function BarcodeOf(req: Request): Barcode {
    Barcode(Or(req.barcodeMessage, VCardText(Route, req.contact)), req.barcodeFormat, MessageEncoding)
  }

  /** The assembled pass for a request and the identifier of its record. */
  function PassOf(req: Request, id: string): Content {
    var c := req.contact;
    Content(PropsOf(req, id), PrimaryFields(c), SecondaryFields(c), AuxiliaryFields(c), BackFields(c), [BarcodeOf(req)])
  }

  /** The list of social network lines the route gathers, one conditional push per network. */
  method SocialNetworkLines(data: Contact) returns (socialNetworks: seq<string>)
    ensures socialNetworks == SocialNetworks(data)
  {
    socialNetworks := [];
    if Truthy(data.linkedin) {
      socialNetworks := socialNetworks + [SocialLine(LinkedIn, data.linkedin)];
    }
    if Truthy(data.twitter) {
      socialNetworks := socialNetworks + [SocialLine(Twitter, data.twitter)];
    }
    if Truthy(data.instagram) {
      socialNetworks := socialNetworks + [SocialLine(Instagram, data.instagram)];
    }
    if Truthy(data.facebook) {
      socialNetworks := socialNetworks + [SocialLine(Facebook, data.facebook)];
    }
    KeepFour((Truthy(data.linkedin), SocialLine(LinkedIn, data.linkedin)), (Truthy(data.twitter), SocialLine(Twitter, data.twitter)),
      (Truthy(data.instagram), SocialLine(Instagram, data.instagram)), (Truthy(data.facebook), SocialLine(Facebook, data.facebook)));
  }

  /** The front of a new pass: the name, then the secondary and the auxiliary fields whose value is present. */
  method PushFrontFields(pass: Pass, data: Contact)
    requires pass.primaryFields == pass.secondaryFields == pass.auxiliaryFields == []
    modifies pass
    ensures pass.primaryFields == PrimaryFields(data)
    ensures pass.secondaryFields == SecondaryFields(data)
    ensures pass.auxiliaryFields == AuxiliaryFields(data)
    ensures pass.props == old(pass.props) && pass.backFields == old(pass.backFields) && pass.barcodes == old(pass.barcodes)
  {
    pass.PushPrimary(FieldOf(NameField, data.firstName + " " + data.lastName));

    if Truthy(data.jobTitle) {
      pass.PushSecondary(FieldOf(JobField, data.jobTitle));
    }
    if Truthy(data.companyName) {
      pass.PushSecondary(FieldOf(CompanyField, data.companyName));
    }
    assert pass.secondaryFields == SecondaryFields(data) by {
      KeepTwo(SecondaryTable(data)[0], SecondaryTable(data)[1]);
    }

    if Truthy(data.email) {
      pass.PushAuxiliary(FieldOf(EmailField, data.email));
    }
    if Truthy(data.phone) {
      pass.PushAuxiliary(FieldOf(PhoneField, data.phone));
    }
    assert pass.auxiliaryFields == AuxiliaryFields(data) by {
      KeepTwo(AuxiliaryTable(data)[0], AuxiliaryTable(data)[1]);
    }
  }

  /** The back of a new pass: the contact field, the social networks if any, the address if any part survives the filter. */
  method PushBackFields(pass: Pass, data: Contact)
    requires pass.backFields == []
    modifies pass
    ensures pass.backFields == BackFields(data)
    ensures pass.props == old(pass.props) && pass.primaryFields == old(pass.primaryFields)
    ensures pass.secondaryFields == old(pass.secondaryFields) && pass.auxiliaryFields == old(pass.auxiliaryFields)
    ensures pass.barcodes == old(pass.barcodes)
  {
    pass.PushBack(FieldOf(ContactInfoField,
      Or(data.email, "") + (if Truthy(data.phone) then Separator + data.phone else "") + (if Truthy(data.website) then Separator + data.website else "")));
    assert pass.backFields == [FieldOf(ContactInfoField, ContactInfo(data))];

    var socialNetworks := SocialNetworkLines(data);
    if |socialNetworks| > 0 {
      pass.PushBack(FieldOf(SocialMediaField, Join(socialNetworks, Separator)));
    }
    assert pass.backFields == [FieldOf(ContactInfoField, ContactInfo(data))]
      + (if |socialNetworks| > 0 then [FieldOf(SocialMediaField, Join(socialNetworks, Separator))] else []);

    if Truthy(data.address) || Truthy(data.city) || Truthy(data.state) || Truthy(data.zipCode) || Truthy(data.country) {
      var addressParts := AddressParts(data);
      if |addressParts| > 0 {
        pass.PushBack(FieldOf(AddressField, Join(addressParts, AddressSeparator)));
      }
    }
  }

  /**
   * The assembly of `POST`: the vCard, the pass from its properties, the
   * front and back fields, the barcode with the request's message or the vCard.
   */
  method GeneratePass(req: Request, id: string) returns (content: Content)
    ensures content == PassOf(req, id)
  {
    var data := req.contact;
    var vCardData := GenerateVCard(data);
    var pass := new Pass(Props(FormatVersion, PassTypeIdentifier, id, TeamIdentifier,
      Or(data.companyName, DefaultOrganization), Description(data), Or(data.companyName, data.firstName + " " + data.lastName),
      HexToRgb(req.foregroundColor), HexToRgb(req.backgroundColor), HexToRgb(req.labelColor)));
    PushFrontFields(pass, data);
    PushBackFields(pass, data);
    var barcodeMessage := Or(req.barcodeMessage, vCardData);
    pass.SetBarcodes(Barcode(barcodeMessage, req.barcodeFormat, MessageEncoding));
    content := pass.Contents();
  }

  // Properties of the pass

  /** Of a two-entry table with distinct elements: each element is kept if and only if its condition holds, the first first. */
  lemma PairShape<T>(a: (bool, T), b: (bool, T))
    requires a.1 != b.1
    ensures a.1 in Keep([a, b]) <==> a.0
    ensures b.1 in Keep([a, b]) <==> b.0
    ensures |Keep([a, b])| == Count(a.0) + Count(b.0)
    ensures a.0 ==> Keep([a, b])[0] == a.1
  {
    KeepTwo(a, b);
  }

  /** The job and the company are on the front exactly when present, the job first; the same holds for e-mail and phone. */
  lemma FrontShape(c: Contact)
    ensures FieldOf(JobField, c.jobTitle) in SecondaryFields(c) <==> Truthy(c.jobTitle)
    ensures FieldOf(CompanyField, c.companyName) in SecondaryFields(c) <==> Truthy(c.companyName)
    ensures |SecondaryFields(c)| == Count(Truthy(c.jobTitle)) + Count(Truthy(c.companyName))
    ensures Truthy(c.jobTitle) ==> SecondaryFields(c)[0] == FieldOf(JobField, c.jobTitle)
    ensures FieldOf(EmailField, c.email) in AuxiliaryFields(c) <==> Truthy(c.email)
    ensures FieldOf(PhoneField, c.phone) in AuxiliaryFields(c) <==> Truthy(c.phone)
    ensures |AuxiliaryFields(c)| == Count(Truthy(c.email)) + Count(Truthy(c.phone))
    ensures Truthy(c.email) ==> AuxiliaryFields(c)[0] == FieldOf(EmailField, c.email)
  {
    KeysDistinct(JobField, CompanyField);
    PairShape(SecondaryTable(c)[0], SecondaryTable(c)[1]);
    KeysDistinct(EmailField, PhoneField);
    PairShape(AuxiliaryTable(c)[0], AuxiliaryTable(c)[1]);
  }

  /** There are social network lines exactly when some network is given. */
  lemma SocialPresent(c: Contact)
    ensures |SocialNetworks(c)| > 0 <==> Truthy(c.linkedin) || Truthy(c.twitter) || Truthy(c.instagram) || Truthy(c.facebook)
  {
    var t := SocialTable(c);
    KeepEmpty(t);
    if Truthy(c.linkedin) || Truthy(c.twitter) || Truthy(c.instagram) || Truthy(c.facebook) {
      assert t[0].0 || t[1].0 || t[2].0 || t[3].0;
    }
  }

  /** A given network's line is among the social network lines, at its rank; the lines keep the order LinkedIn, Twitter, Instagram, Facebook. */
  lemma SocialOrder(c: Contact, i: nat, j: nat)
    requires i < j < 4 && SocialTable(c)[i].0 && SocialTable(c)[j].0
    ensures Rank(SocialTable(c), i) < Rank(SocialTable(c), j) < |SocialNetworks(c)|
    ensures SocialNetworks(c)[Rank(SocialTable(c), i)] == SocialTable(c)[i].1
    ensures SocialNetworks(c)[Rank(SocialTable(c), j)] == SocialTable(c)[j].1
  {
    var t := SocialTable(c);
    RankIncreasing(t, i, j);
    KeepAt(t, i);
    KeepAt(t, j);
  }

  /** The filter: a string is an address part exactly when it is one of the five components and not blank. */
  lemma AddressFilter(c: Contact, x: string)
    ensures x in AddressParts(c)
        <==> NonBlank(x) && (x == c.address || x == c.city || x == c.state || x == c.zipCode || x == c.country)
  {
    var t := AddressTable(c);
    KeepMember(t, x);
    if x in AddressParts(c) {
      var i :| 0 <= i < |t| && t[i].0 && t[i].1 == x;
      assert i == 0 || i == 1 || i == 2 || i == 3 || i == 4;
    } else if NonBlank(x) {
      assert t[0].1 != x && t[1].1 != x && t[2].1 != x && t[3].1 != x && t[4].1 != x;
    }
  }

  /** The address field is pushed exactly when some component is not blank. */
  lemma AddressPresent(c: Contact)
    ensures HasAddressField(c) <==> NonBlank(c.address) || NonBlank(c.city) || NonBlank(c.state) || NonBlank(c.zipCode) || NonBlank(c.country)
  {
    var t := AddressTable(c);
    KeepEmpty(t);
    if NonBlank(c.address) || NonBlank(c.city) || NonBlank(c.state) || NonBlank(c.zipCode) || NonBlank(c.country) {
      assert t[0].0 || t[1].0 || t[2].0 || t[3].0 || t[4].0;
    }
  }

  /**
   * The back of the pass: the contact field first, at most one field of the
   * social networks after it, and the address last.
   */
  lemma BackFrame(c: Contact)
    ensures 1 <= |BackFields(c)| <= 3 && BackFields(c)[0] == FieldOf(ContactInfoField, ContactInfo(c))
    ensures |BackFields(c)| >= 2 && |SocialNetworks(c)| > 0 ==> BackFields(c)[1].key == KeyOf(SocialMediaField)
    ensures |BackFields(c)| >= 2 && HasAddressField(c) ==> BackFields(c)[|BackFields(c)| - 1].key == KeyOf(AddressField)
  {
  }

  /** The back of the pass has a social network field exactly when some network is given. */
  lemma BackSocial(c: Contact)
    ensures HasField(BackFields(c), SocialMediaField) <==> Truthy(c.linkedin) || Truthy(c.twitter) || Truthy(c.instagram) || Truthy(c.facebook)
  {
    SocialPresent(c);
    KeysDistinct(ContactInfoField, SocialMediaField);
    KeysDistinct(AddressField, SocialMediaField);
    var s := FieldOf(SocialMediaField, Join(SocialNetworks(c), Separator));
    if |SocialNetworks(c)| > 0 {
      assert s in BackFields(c);
    }
  }

  /** The back of the pass has an address field exactly when some address component is not blank. */
  lemma BackAddress(c: Contact)
    ensures HasField(BackFields(c), AddressField)
        <==> NonBlank(c.address) || NonBlank(c.city) || NonBlank(c.state) || NonBlank(c.zipCode) || NonBlank(c.country)
  {
    AddressPresent(c);
    KeysDistinct(ContactInfoField, AddressField);
    KeysDistinct(SocialMediaField, AddressField);
    var a := FieldOf(AddressField, Join(AddressParts(c), AddressSeparator));
    if HasAddressField(c) {
      assert a in BackFields(c);
    }
  }

  /**
   * An address of white space only: the vCard in the barcode has its ADR
   * line, while the back of the pass has no address field.
   */
  lemma BlankAddress(c: Contact)
    requires HasAddress(c)
    requires !NonBlank(c.address) && !NonBlank(c.city) && !NonBlank(c.state) && !NonBlank(c.zipCode) && !NonBlank(c.country)
    ensures Entry(c, 9).1 in Body(c)
    ensures !HasField(BackFields(c), AddressField)
  {
    OptionalPresent(c, 9);
    BackAddress(c);
  }

  /**
   * The contact value is the present parts joined by the separator, with one
   * separator more in front when the e-mail is missing and something follows.
   */
  lemma ContactInfoJoin(c: Contact)
    ensures ContactInfo(c)
         == (if !Truthy(c.email) && |Keep(ContactParts(c))| > 0 then Separator else "") + Join(Keep(ContactParts(c)), Separator)
  {
    var e, p, w := c.email, c.phone, c.website;
    KeepThree((Truthy(e), e), (Truthy(p), p), (Truthy(w), w));
    var xs := Keep(ContactParts(c));
    if Truthy(p) && Truthy(w) {
      if Truthy(e) {
        assert xs == [e] + [p, w];
        JoinCons(e, [p, w], Separator);
        JoinCons(p, [w], Separator);
      } else {
        assert xs == [p] + [w];
        JoinCons(p, [w], Separator);
      }
    } else if Truthy(p) {
      if Truthy(e) {
        assert xs == [e] + [p];
        JoinCons(e, [p], Separator);
      } else {
        assert xs == [p];
      }
    } else if Truthy(w) {
      if Truthy(e) {
        assert xs == [e] + [w];
        JoinCons(e, [w], Separator);
      } else {
        assert xs == [w];
      }
    } else if Truthy(e) {
      assert xs == [e];
    } else {
      assert xs == [];
    }
  }

  /**
   * The pass properties: version 1, the fixed identifiers, the record's
   * identifier as serial number, the company name or its fallbacks, and
   * colours that agree with the library converter wherever it accepts them.
   */
  lemma HeaderFields(req: Request, id: string)
    ensures var p, c := PassOf(req, id).props, req.contact;
      p.formatVersion == 1 && p.serialNumber == id
      && p.passTypeIdentifier == PassTypeIdentifier && p.teamIdentifier == TeamIdentifier
      && p.description == Description(c)
      && (Truthy(c.companyName) ==> p.organizationName == c.companyName && p.logoText == c.companyName)
      && (!Truthy(c.companyName) ==> p.organizationName == DefaultOrganization && p.logoText == c.firstName + " " + c.lastName)
    ensures var p := PassOf(req, id).props;
      (Color.HexToRgb(req.foregroundColor).Ok? ==> p.foregroundColor == Color.HexToRgb(req.foregroundColor).value)
      && (Color.HexToRgb(req.backgroundColor).Ok? ==> p.backgroundColor == Color.HexToRgb(req.backgroundColor).value)
      && (Color.HexToRgb(req.labelColor).Ok? ==> p.labelColor == Color.HexToRgb(req.labelColor).value)
  {
  }

  /** Without a barcode message the barcode carries the route's vCard, a whole card from BEGIN:VCARD to END:VCARD. */
  lemma BarcodeMessage(req: Request, id: string)
    ensures Truthy(req.barcodeMessage) ==> BarcodeOf(req).message == req.barcodeMessage
    ensures !Truthy(req.barcodeMessage) ==> BarcodeOf(req).message == VCardText(Route, req.contact)
    ensures !Truthy(req.barcodeMessage) ==> StartsWith(BarcodeOf(req).message, "BEGIN:VCARD") && EndsWith(BarcodeOf(req).message, "END:VCARD")
    ensures BarcodeOf(req).format == req.barcodeFormat && BarcodeOf(req).messageEncoding == MessageEncoding
    ensures PassOf(req, id).barcodes == [BarcodeOf(req)]
  {
    var ls := Lines(Route, req.contact);
    LinesFrame(Route, req.contact);
    assert ls[0] == Header(req.contact)[0];
    JoinStart(ls, Separator);
    JoinEnd(ls, Separator);
  }
}
