/** The card component (src/components/ui/business-card.tsx): its style, avatar, contact
    rows and their links, social tiles and QR block, as values computed from its props. */
module BusinessCard {
  import opened Wrappers
  import opened Text
  import opened Forms

  // ---- getCardStyle ----

  const GLASS_STYLE := "glass-morphism border border-white/20"

  /** The variants with a style of their own. */
  predicate HasOwnStyle(variant: string) {
    variant in {"minimal", "gradient", "dark", "elegant", "modern"}
  }

  /** `getCardStyle`: five variants have their own classes; `default`, `preview` and any
      other string fall back to the glass style. */
  function GetCardStyle(variant: string): (style: string)
    ensures !HasOwnStyle(variant) <==> style == GLASS_STYLE
    ensures variant == "minimal" ==> style == "bg-white text-black shadow-lg border border-gray-100"
    ensures variant == "dark" ==> style == "bg-gray-900 text-white border border-gray-800"
  {
    if variant == "minimal" then "bg-white text-black shadow-lg border border-gray-100"
    else if variant == "gradient" then "bg-gradient-to-br from-indigo-500 via-purple-600 to-pink-500 text-white"
    else if variant == "dark" then "bg-gray-900 text-white border border-gray-800"
    else if variant == "elegant" then "bg-black text-white"
    else if variant == "modern" then "bg-gradient-to-br from-futuristic-blue to-futuristic-magenta text-white"
    else GLASS_STYLE
  }

  /** `variant = 'default'`: an absent prop means the default variant. */
  function VariantProp(variant: Option<string>): string {
    variant.GetOr("default")
  }

  lemma DefaultAndPreviewAreGlass(variant: Option<string>)
    requires variant.None? || variant == Some("preview") || variant == Some("default")
    ensures GetCardStyle(VariantProp(variant)) == GLASS_STYLE
  {
  }

  // ---- photo and logo ----

  /** `name.charAt(0)`: the first character, or the empty string for an empty name. */
  function CharAt0(name: string): (s: string)
    ensures |s| == if name == [] then 0 else 1
    ensures name != [] ==> s[0] == name[0]
  {
    if name == [] then "" else [name[0]]
  }

  /** A prop that React renders: present and not the empty string. */
  predicate Present(v: Option<string>) {
    v.Some? && v.value != ""
  }

  datatype Avatar = Photo(src: string) | Initial(text: string)

  /** The avatar and the logo badge shown over it (`None` when there is no badge). */
  datatype Header = Header(avatar: Avatar, logoBadge: Option<string>)

  function HeaderOf(name: string, photo: Option<string>, logo: Option<string>): (h: Header)
    ensures h.avatar.Photo? <==> Present(photo)
    ensures h.avatar.Initial? ==> h.avatar.text == CharAt0(name)
    ensures h.logoBadge.Some? <==> Present(logo)
    ensures h.logoBadge.Some? ==> h.logoBadge.value == logo.value
  {
    var badge := if Present(logo) then Some(logo.value) else None;
    if Present(photo) then Header(Photo(photo.value), badge)
    else Header(Initial(CharAt0(name)), badge)
  }

  /** The logo badge is the same in both branches: it does not depend on the photo. */
  lemma LogoBadgeIgnoresPhoto(name: string, p: Option<string>, q: Option<string>, logo: Option<string>)
    ensures HeaderOf(name, p, logo).logoBadge == HeaderOf(name, q, logo).logoBadge
  {
  }

  // ---- contact rows ----

  datatype ContactKind = EmailRow | LocationRow | PhoneRow | WebsiteRow

  /** A link target. A location links to a map search of its text; the percent-encoding of
      that text is not modelled, so the query is kept as text. */
  datatype Href = Link(url: string) | MapsSearch(query: string)

  datatype ContactRow = ContactRow(kind: ContactKind, value: string, caption: string, href: Href)

  /** The rows' fixed order. */
  function Rank(kind: ContactKind): nat {
    match kind
    case EmailRow => 0
    case LocationRow => 1
    case PhoneRow => 2
    case WebsiteRow => 3
  }

  function Label(kind: ContactKind): string {
    match kind
    case EmailRow => "Email"
    case LocationRow => "Location"
    case PhoneRow => "T\U{00E9}l\U{00E9}phone"
    case WebsiteRow => "Site Web"
  }

  /** The website link: a value that starts with `http` is used as it is, any other gets `https://`. */
  function WebsiteHref(value: string): (href: string)
    ensures StartsWith(value, "http") ==> href == value
    ensures !StartsWith(value, "http") ==> href == "https://" + value
  {
    if StartsWith(value, "http") then value else "https://" + value
  }

  /** Every website link starts with `http` and ends with the value, and a second pass
      leaves it as it is. */
  lemma WebsiteHrefShape(value: string)
    ensures StartsWith(WebsiteHref(value), "http") && EndsWith(WebsiteHref(value), value)
    ensures WebsiteHref(WebsiteHref(value)) == WebsiteHref(value)
  {
  }

  /** `ContactRow.getContactInfo`: the label and the link of a row. */
  function ContactInfo(kind: ContactKind, value: string): (r: ContactRow)
    ensures r.kind == kind && r.value == value && r.caption == Label(kind)
    ensures kind == EmailRow ==> r.href == Link("mailto:" + value)
    ensures kind == PhoneRow ==> r.href == Link("tel:" + value)
    ensures kind == LocationRow ==> r.href == MapsSearch(value)
    ensures kind == WebsiteRow ==> r.href == Link(WebsiteHref(value))
  {
    match kind
    case EmailRow => ContactRow(kind, value, Label(kind), Link("mailto:" + value))
    case PhoneRow => ContactRow(kind, value, Label(kind), Link("tel:" + value))
    case LocationRow => ContactRow(kind, value, Label(kind), MapsSearch(value))
    case WebsiteRow => ContactRow(kind, value, Label(kind), Link(WebsiteHref(value)))
  }

  function RowIf(kind: ContactKind, v: Option<string>): seq<ContactRow> {
    if Present(v) then [ContactInfo(kind, v.value)] else []
  }

  /** The contact block: email, location, phone and website, each only when present. */
  function ContactRows(email: Option<string>, location: Option<string>, phone: Option<string>,
                       website: Option<string>): seq<ContactRow>
  {
    RowIf(EmailRow, email) + RowIf(LocationRow, location) + RowIf(PhoneRow, phone) + RowIf(WebsiteRow, website)
  }

  /** The value a row of the given kind shows, taken from the props. */
  function FieldFor(kind: ContactKind, email: Option<string>, location: Option<string>,
                    phone: Option<string>, website: Option<string>): Option<string> {
    match kind
    case EmailRow => email
    case LocationRow => location
    case PhoneRow => phone
    case WebsiteRow => website
  }

  /** A row of the given kind, present exactly when its prop is. */
  lemma RowIfShape(kind: ContactKind, v: Option<string>)
    ensures var s := RowIf(kind, v);
      && (|s| == 1 <==> Present(v)) && |s| <= 1
      && (Present(v) ==> s[0] == ContactInfo(kind, v.value) && s[0].kind == kind)
  {
  }

  /** The row at index `k` is the one of the segment `k` falls in. */
  lemma ContactRowAt(email: Option<string>, location: Option<string>, phone: Option<string>,
                     website: Option<string>, k: int)
    requires 0 <= k < |ContactRows(email, location, phone, website)|
    ensures var a, b, c := RowIf(EmailRow, email), RowIf(LocationRow, location), RowIf(PhoneRow, phone);
      var row := ContactRows(email, location, phone, website)[k];
      && |a| <= 1 && |b| <= 1 && |c| <= 1
      && row.kind == (if k < |a| then EmailRow else if k < |a| + |b| then LocationRow
                      else if k < |a| + |b| + |c| then PhoneRow else WebsiteRow)
      && Present(FieldFor(row.kind, email, location, phone, website))
      && row == ContactInfo(row.kind, FieldFor(row.kind, email, location, phone, website).value)
  {
    var a, b, c, d := RowIf(EmailRow, email), RowIf(LocationRow, location), RowIf(PhoneRow, phone), RowIf(WebsiteRow, website);
    RowIfShape(EmailRow, email);
    RowIfShape(LocationRow, location);
    RowIfShape(PhoneRow, phone);
    RowIfShape(WebsiteRow, website);
    var rows := a + b + c + d;
    if k < |a| {
      assert rows[k] == a[k];
    } else if k < |a| + |b| {
      assert rows[k] == b[k - |a|];
    } else if k < |a| + |b| + |c| {
      assert rows[k] == c[k - |a| - |b|];
    } else {
      assert rows[k] == d[k - |a| - |b| - |c|];
    }
  }

  /** The rows come in the fixed order, one per present prop and none for an absent or
      empty one, each showing its prop's value with the link `getContactInfo` gives it. */
  lemma ContactRowsSpec(email: Option<string>, location: Option<string>, phone: Option<string>,
                        website: Option<string>)
    ensures var rows := ContactRows(email, location, phone, website);
      && (forall i, j :: 0 <= i < j < |rows| ==> Rank(rows[i].kind) < Rank(rows[j].kind))
      && (forall k :: 0 <= k < |rows| ==>
            var v := FieldFor(rows[k].kind, email, location, phone, website);
            Present(v) && rows[k] == ContactInfo(rows[k].kind, v.value))
      && (forall kind :: Present(FieldFor(kind, email, location, phone, website)) <==>
            exists k :: 0 <= k < |rows| && rows[k].kind == kind)
  {
    var rows := ContactRows(email, location, phone, website);
    forall i, j | 0 <= i < j < |rows|
      ensures Rank(rows[i].kind) < Rank(rows[j].kind)
    {
      ContactRowAt(email, location, phone, website, i);
      ContactRowAt(email, location, phone, website, j);
    }
    forall k | 0 <= k < |rows|
      ensures var v := FieldFor(rows[k].kind, email, location, phone, website);
              Present(v) && rows[k] == ContactInfo(rows[k].kind, v.value)
    {
      ContactRowAt(email, location, phone, website, k);
    }
    var a, b, c := RowIf(EmailRow, email), RowIf(LocationRow, location), RowIf(PhoneRow, phone);
    RowIfShape(EmailRow, email);
    RowIfShape(LocationRow, location);
    RowIfShape(PhoneRow, phone);
    RowIfShape(WebsiteRow, website);
    forall kind | Present(FieldFor(kind, email, location, phone, website))
      ensures exists k :: 0 <= k < |rows| && rows[k].kind == kind
    {
      var k := match kind
        case EmailRow => 0
        case LocationRow => |a|
        case PhoneRow => |a| + |b|
        case WebsiteRow => |a| + |b| + |c|;
      ContactRowAt(email, location, phone, website, k);
    }
  }

  // ---- social links and QR code ----

  /** The social section: hidden (`None`) when there are no links, else one tile per link,
      in order, labelled with its network. */
  function SocialTiles(socials: Option<seq<SocialLink>>): (tiles: Option<seq<string>>)
    ensures tiles.None? <==> socials.GetOr([]) == []
    ensures tiles.Some? ==> |tiles.value| == |socials.value|
    ensures tiles.Some? ==> forall k :: 0 <= k < |tiles.value| ==> tiles.value[k] == socials.value[k].network
  {
    var s := socials.GetOr([]);
    if |s| > 0 then Some(seq(|s|, k requires 0 <= k < |s| => s[k].network)) else None
  }

  /** `showQrCode && qrUrl`, with the defaults `true` and `null`: shown exactly when a
      non-empty url is given and the flag is not turned off. */
  predicate ShowQr(showQrCode: Option<bool>, qrUrl: Option<string>) {
    showQrCode.GetOr(true) && Present(qrUrl)
  }

  lemma ShowQrDefaults(qrUrl: Option<string>)
    ensures ShowQr(None, qrUrl) <==> Present(qrUrl)
    ensures !ShowQr(None, None) && !ShowQr(Some(false), qrUrl)
  {
  }
}
