/** What the create and edit pages share: the social-link entry of the form, the size
    guard on chosen images, the list edits, and the filter that decides which social
    links are written to the database. */
module Forms {
  import opened Wrappers
  import opened Text
  import Seqs
  import opened Store

  /** A social link as the form holds it. The network is whatever the select sent:
      the pages cast it without a check. */
  datatype SocialLink = SocialLink(network: string, url: string)

  datatype SocialField = Network | Url

  /** The entry `addSocialLink` appends. */
  const NEW_SOCIAL := SocialLink("github", "")

  /** The four card templates the pages offer. */
  datatype Variant = Default | Minimal | Gradient | Dark

  function VariantName(v: Variant): (name: string)
    ensures name in {"default", "minimal", "gradient", "dark"}
  {
    match v
    case Default => "default"
    case Minimal => "minimal"
    case Gradient => "gradient"
    case Dark => "dark"
  }

  // ---- images ----

  /** A chosen file: its size in bytes and the data URL `FileReader` produces for it. */
  datatype File = File(size: nat, dataUrl: string)

  /** `2 * 1024 * 1024`. */
  const MAX_IMAGE_BYTES: nat := 2 * 1024 * 1024

  datatype ImageRead = NoFile | TooLarge | Read(dataUrl: string)

  /** The file input of a handler with the size guard: nothing chosen, a file refused
      because it is over the limit, or the file's data URL. */
  function GuardedRead(file: Option<File>): (r: ImageRead)
    ensures r.NoFile? <==> file.None?
    ensures r.TooLarge? <==> file.Some? && file.value.size > MAX_IMAGE_BYTES
    ensures r.Read? ==> file.Some? && r.dataUrl == file.value.dataUrl
    ensures file.Some? && file.value.size <= 2097152 ==> r == Read(file.value.dataUrl)
  {
    match file
    case None => NoFile
    case Some(f) => if f.size > MAX_IMAGE_BYTES then TooLarge else Read(f.dataUrl)
  }

  /** The same input without the guard. */
  function UnguardedRead(file: Option<File>): (r: ImageRead)
    ensures !r.TooLarge?
    ensures r.NoFile? <==> file.None?
    ensures file.Some? ==> r == Read(file.value.dataUrl)
  {
    match file
    case None => NoFile
    case Some(f) => Read(f.dataUrl)
  }

  /** `s || null` for an optional text. */
  function OrNull(s: Option<string>): (r: Option<string>)
    ensures r.None? <==> s.None? || s == Some("")
    ensures r.Some? ==> r == s
  {
    match s
    case None => None
    case Some(v) => if v == "" then None else Some(v)
  }

  // ---- list edits ----

  /** `s.filter((_, i) => i !== index)`. */
  function RemoveAt<T>(s: seq<T>, index: int): (r: seq<T>)
    ensures 0 <= index < |s| ==> r == s[..index] + s[index + 1..]
    ensures !(0 <= index < |s|) ==> r == s
    decreases |s|
  {
    if s == [] then []
    else
      RemoveAtSlices(s, index);
      (if index == 0 then [] else [s[0]]) + RemoveAt(s[1..], index - 1)
  }

  lemma RemoveAtSlices<T>(s: seq<T>, index: int)
    requires s != []
    ensures 0 < index < |s| ==> s[..index] + s[index + 1..] == [s[0]] + (s[1..][..index - 1] + s[1..][index..])
  {
    if 0 < index < |s| {
      assert s[..index] == [s[0]] + s[1..][..index - 1];
      assert s[index + 1..] == s[1..][index..];
    }
  }

  /** `{ ...s, [field]: value }` for a social link: only the chosen field changes. */
  function SetSocialField(s: SocialLink, field: SocialField, value: string): (r: SocialLink)
    ensures field == Network ==> r.network == value && r.url == s.url
    ensures field == Url ==> r.url == value && r.network == s.network
  {
    match field
    case Network => s.(network := value)
    case Url => s.(url := value)
  }

  // ---- social links written on save ----

  /** `social.url.trim() !== ''`. */
  predicate HasUrl(s: SocialLink) {
    Trim(s.url) != ""
  }

  /** The rows `socials.filter(...).map(...)` builds for card `id`: network and url are
      copied unchanged, the url is not trimmed. */
  function SocialRows(id: string, socials: seq<SocialLink>): (rows: seq<Row<SocialFields>>)
    ensures |rows| == |Seqs.Filter(socials, HasUrl)|
    ensures AllOwnedBy(rows, id)
  {
    if socials == [] then []
    else
      (if HasUrl(socials[0]) then [Row(id, SocialFields(socials[0].network, socials[0].url))] else [])
      + SocialRows(id, socials[1..])
  }

  /** The row of one social link. */
  function SocialRow(id: string, s: SocialLink): Row<SocialFields> {
    Row(id, SocialFields(s.network, s.url))
  }

  /** The reference reading of the filter-then-map chain: the rows are the kept links, in
      order, each turned into a row. */
  lemma {:induction false} SocialRowsAreKept(id: string, socials: seq<SocialLink>)
    ensures var kept := Seqs.Filter(socials, HasUrl);
      forall k :: 0 <= k < |kept| ==> SocialRows(id, socials)[k] == SocialRow(id, kept[k])
  {
    if socials != [] {
      SocialRowsAreKept(id, socials[1..]);
    }
  }

  /** A link is written exactly when its url holds a character that is not white space. */
  lemma SocialKeptIffNotBlank(socials: seq<SocialLink>)
    ensures forall x :: x in Seqs.Filter(socials, HasUrl) <==> x in socials && !IsBlank(x.url)
  {
    Seqs.FilterMembers(socials, HasUrl);
    forall x | x in socials
      ensures HasUrl(x) <==> !IsBlank(x.url)
    {
      TrimEmptyIffBlank(x.url);
    }
  }
}
