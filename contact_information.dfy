/** The contact block of the public card page (src/components/view-card/ContactInformation.tsx),
    compared with the contact rows of the card component. */
module ContactInformation {
  import opened Wrappers
  import opened Text
  import opened Store
  import opened Forms
  import BC = BusinessCard

  /** The link of a row on the public page. Unlike the card component, the website link
      always gets `https://` put in front of the value. */
  function InfoHref(kind: BC.ContactKind, value: string): (href: BC.Href)
    ensures kind == BC.WebsiteRow ==> href == BC.Link("https://" + value)
    ensures kind != BC.WebsiteRow ==> href == BC.ContactInfo(kind, value).href
  {
    match kind
    case EmailRow => BC.Link("mailto:" + value)
    case LocationRow => BC.MapsSearch(value)
    case PhoneRow => BC.Link("tel:" + value)
    case WebsiteRow => BC.Link("https://" + value)
  }

  function InfoRowIf(kind: BC.ContactKind, v: Option<string>): seq<BC.ContactRow> {
    if BC.Present(v) then [BC.ContactRow(kind, v.value, BC.Label(kind), InfoHref(kind, v.value))] else []
  }

  /** The rows: email, location, phone and website, each only when present. */
  function InfoRows(email: Option<string>, phone: Option<string>, website: Option<string>,
                    location: Option<string>): seq<BC.ContactRow>
  {
    InfoRowIf(BC.EmailRow, email) + InfoRowIf(BC.LocationRow, location)
      + InfoRowIf(BC.PhoneRow, phone) + InfoRowIf(BC.WebsiteRow, website)
  }

  /** One row of either block: present together, and equal but for a website link whose
      value already starts with `http`. */
  lemma InfoRowIfVsRowIf(kind: BC.ContactKind, v: Option<string>)
    ensures var i, c := InfoRowIf(kind, v), BC.RowIf(kind, v);
      && |i| == |c| && |i| <= 1
      && (|i| == 1 ==> && i[0].kind == c[0].kind == kind && i[0].value == c[0].value
                       && i[0].caption == c[0].caption
                       && (i[0].href != c[0].href <==> kind == BC.WebsiteRow && StartsWith(i[0].value, "http")))
  {
    if BC.Present(v) && kind == BC.WebsiteRow && StartsWith(v.value, "http") {
      assert |BC.WebsiteHref(v.value)| < |"https://" + v.value|;
    }
  }

  /** The public page shows the same rows as the card component, in the same order, with
      the same values and captions; only the website link can differ, and it differs
      exactly when the value already starts with `http`. */
  lemma InfoRowsVsCardRows(email: Option<string>, phone: Option<string>, website: Option<string>,
                           location: Option<string>)
    ensures var info := InfoRows(email, phone, website, location);
      var card := BC.ContactRows(email, location, phone, website);
      && |info| == |card|
      && (forall k :: 0 <= k < |info| ==>
            info[k].kind == card[k].kind && info[k].value == card[k].value && info[k].caption == card[k].caption)
      && (forall k :: 0 <= k < |info| ==>
            (info[k].href != card[k].href <==> info[k].kind == BC.WebsiteRow && StartsWith(info[k].value, "http")))
  {
    var info := InfoRows(email, phone, website, location);
    var card := BC.ContactRows(email, location, phone, website);
    var i1, i2, i3, i4 := InfoRowIf(BC.EmailRow, email), InfoRowIf(BC.LocationRow, location),
      InfoRowIf(BC.PhoneRow, phone), InfoRowIf(BC.WebsiteRow, website);
    var c1, c2, c3, c4 := BC.RowIf(BC.EmailRow, email), BC.RowIf(BC.LocationRow, location),
      BC.RowIf(BC.PhoneRow, phone), BC.RowIf(BC.WebsiteRow, website);
    InfoRowIfVsRowIf(BC.EmailRow, email);
    InfoRowIfVsRowIf(BC.LocationRow, location);
    InfoRowIfVsRowIf(BC.PhoneRow, phone);
    InfoRowIfVsRowIf(BC.WebsiteRow, website);
    forall k | 0 <= k < |info|
      ensures info[k].kind == card[k].kind && info[k].value == card[k].value && info[k].caption == card[k].caption
      ensures info[k].href != card[k].href <==> info[k].kind == BC.WebsiteRow && StartsWith(info[k].value, "http")
    {
      if k < |i1| {
        assert info[k] == i1[k] && card[k] == c1[k];
      } else if k < |i1| + |i2| {
        assert info[k] == i2[k - |i1|] && card[k] == c2[k - |i1|];
      } else if k < |i1| + |i2| + |i3| {
        assert info[k] == i3[k - |i1| - |i2|] && card[k] == c3[k - |i1| - |i2|];
      } else {
        assert info[k] == i4[k - |i1| - |i2| - |i3|] && card[k] == c4[k - |i1| - |i2| - |i3|];
      }
    }
  }

  /** The social section: hidden when there are no rows, else the `(network, url)` of each
      row, in order, with the rows' other columns dropped. */
  function Profiles(socials: seq<SocialFields>): (p: Option<seq<SocialLink>>)
    ensures p.None? <==> socials == []
    ensures p.Some? ==> |p.value| == |socials|
    ensures p.Some? ==> forall k :: 0 <= k < |socials| ==>
      p.value[k].network == socials[k].network && p.value[k].url == socials[k].url
  {
    if |socials| > 0 then Some(seq(|socials|, k requires 0 <= k < |socials| => SocialLink(socials[k].network, socials[k].url)))
    else None
  }
}
