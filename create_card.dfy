/** The create page (src/pages/CreateCard.tsx): the form state, its handlers, the format
    checks and the save that writes a new card with its social links and portfolio items. */
module CreateCard {
  import opened Wrappers
  import opened Text
  import Seqs
  import opened Validation
  import opened Slug
  import opened Store
  import opened Forms

  /** The text inputs, by their `name` attribute. */
  datatype Field = Name | Title | Email | Phone | Location | Website | Bio

  /** A portfolio entry of the form: `imageUrl` is the preview, `imageFile` the file to upload. */
  datatype PortfolioDraft = PortfolioDraft(
    title: string,
    description: string,
    imageFile: Option<File>,
    imageUrl: Option<string>,
    link: Option<string>)

  datatype DraftField = DraftTitle | DraftDescription | DraftLink

  datatype CardFormData = CardFormData(
    name: string,
    title: string,
    email: string,
    phone: string,
    location: string,
    website: string,
    bio: string,
    photo: string,
    logo: string,
    variant: Variant,
    socials: seq<SocialLink>,
    portfolio: seq<PortfolioDraft>)

  /** The form as the page opens it: empty fields, four empty social links, no portfolio. */
  function InitialForm(): (d: CardFormData)
    ensures |d.socials| == 4 && d.portfolio == [] && d.variant == Default
    ensures forall f :: GetField(d, f) == ""
  {
    CardFormData("", "", "", "", "", "", "", "", "", Default,
      [SocialLink("linkedin", ""), SocialLink("twitter", ""),
       SocialLink("instagram", ""), SocialLink("facebook", "")],
      [])
  }

  function GetField(d: CardFormData, f: Field): string {
    match f
    case Name => d.name
    case Title => d.title
    case Email => d.email
    case Phone => d.phone
    case Location => d.location
    case Website => d.website
    case Bio => d.bio
  }

  /** `{ ...prev, [name]: value }`: the named input takes the value, nothing else changes. */
  function SetField(d: CardFormData, f: Field, value: string): (r: CardFormData)
    ensures GetField(r, f) == value
    ensures forall g :: g != f ==> GetField(r, g) == GetField(d, g)
    ensures r.photo == d.photo && r.logo == d.logo && r.variant == d.variant
    ensures r.socials == d.socials && r.portfolio == d.portfolio
  {
    match f
    case Name => d.(name := value)
    case Title => d.(title := value)
    case Email => d.(email := value)
    case Phone => d.(phone := value)
    case Location => d.(location := value)
    case Website => d.(website := value)
    case Bio => d.(bio := value)
  }

  // ---- validateForm ----

  /** A field `validateForm` reports: it is filled and its pattern fails. Only email, phone
      and website have a pattern. */
  predicate Flagged(d: CardFormData, f: Field) {
    match f
    case Email => d.email != "" && !IsValidEmail(d.email)
    case Phone => d.phone != "" && !IsValidPhone(d.phone)
    case Website => d.website != "" && !IsValidWebsite(d.website)
    case _ => false
  }

  function ErrorMessage(f: Field): (m: string)
    ensures m != ""
  {
    match f
    case Email => "Format d'email invalide"
    case Phone => "Format de t\U{00E9}l\U{00E9}phone invalide"
    case Website => "Format de site web invalide"
    case _ => "Champ invalide"
  }

  /** The `newErrors` dictionary, filled one check at a time. */
  method CollectErrors(d: CardFormData) returns (errs: map<Field, string>)
    ensures forall f :: f in errs <==> Flagged(d, f)
    ensures forall f :: f in errs ==> errs[f] == ErrorMessage(f)
    ensures forall f :: GetField(d, f) == "" ==> f !in errs
  {
    errs := map[];
    if d.email != "" && !IsValidEmail(d.email) {
      errs := errs[Email := ErrorMessage(Email)];
    }
    if d.phone != "" && !IsValidPhone(d.phone) {
      errs := errs[Phone := ErrorMessage(Phone)];
    }
    if d.website != "" && !IsValidWebsite(d.website) {
      errs := errs[Website := ErrorMessage(Website)];
    }
  }

  // ---- saveCard ----

  /** The row inserted into `business_cards`: every text field as typed, published, with the slug. */
  function NewCardRow(id: string, userId: string, d: CardFormData, slug: string): CardRow {
    CardRow(id, userId, d.name, Some(d.title), Some(d.bio), Some(d.email), Some(d.phone),
      Some(d.location), Some(d.website), Some(d.photo), Some(d.logo),
      VariantName(d.variant), Some(true), Some(slug), None)
  }

  /** The image url stored for draft `k`: what the upload returned for a chosen file (a
      failed or empty upload leaves none), else the draft's own url. */
  function StoredImageUrl(item: PortfolioDraft, uploaded: Option<string>): (r: Option<string>)
    ensures item.imageFile.None? ==> r == item.imageUrl
    ensures item.imageFile.Some? ==> r == OrNull(uploaded)
  {
    if item.imageFile.Some? then OrNull(uploaded) else item.imageUrl
  }

  /** The row inserted for a portfolio draft of card `id`. */
  function DraftRow(id: string, item: PortfolioDraft, uploaded: Option<string>): (row: Row<PortfolioFields>)
    ensures row.cardId == id && row.fields.title == item.title
    ensures row.fields.description.None? <==> item.description == ""
    ensures row.fields.description.Some? ==> row.fields.description.value == item.description
    ensures row.fields.link == OrNull(item.link)
    ensures row.fields.imageUrl == StoredImageUrl(item, uploaded)
  {
    Row(id, PortfolioFields(item.title, OrNull(Some(item.description)), StoredImageUrl(item, uploaded), OrNull(item.link)))
  }

  /** The rows the portfolio loop has inserted after the first `n` drafts: one per draft
      with a non-empty title whose insert did not fail. */
  function PortfolioInserts(id: string, items: seq<PortfolioDraft>, upload: nat -> Option<string>,
                            faults: set<Step>, n: nat): (rows: seq<Row<PortfolioFields>>)
    requires n <= |items|
    ensures |rows| <= n
    ensures AllOwnedBy(rows, id)
    ensures forall k :: 0 <= k < |rows| ==> rows[k].fields.title != ""
  {
    if n == 0 then []
    else
      PortfolioInserts(id, items, upload, faults, n - 1)
      + (if items[n - 1].title != "" && InsertPortfolioItem(n - 1) !in faults
         then [DraftRow(id, items[n - 1], upload(n - 1))] else [])
  }


  predicate HasTitle(item: PortfolioDraft) {
    item.title != ""
  }

  function RowTitles(rows: seq<Row<PortfolioFields>>): (ts: seq<string>)
    ensures |ts| == |rows|
    ensures forall k :: 0 <= k < |rows| ==> ts[k] == rows[k].fields.title
  {
    if rows == [] then [] else [rows[0].fields.title] + RowTitles(rows[1..])
  }

  function DraftTitles(items: seq<PortfolioDraft>): (ts: seq<string>)
    ensures |ts| == |items|
    ensures forall k :: 0 <= k < |items| ==> ts[k] == items[k].title
  {
    if items == [] then [] else [items[0].title] + DraftTitles(items[1..])
  }

  ghost predicate NoItemFaults(faults: set<Step>) {
    forall k: nat :: InsertPortfolioItem(k) !in faults
  }

  /** What the save leads to: the sign-in page, the error of the card insert, or the card's public page. */
  datatype SaveResult = NotSignedIn | CardInsertFailed | Saved(slug: string)

  /** The loop `for (const item of formData.portfolio)`: each draft with a title is
      inserted on its own; a failed upload leaves no image and a failed insert is skipped. */
  method InsertPortfolioDrafts(db: Db, id: string, items: seq<PortfolioDraft>,
                               upload: nat -> Option<string>, faults: set<Step>) returns (db': Db)
    ensures db' == db.(portfolioItems := db.portfolioItems + PortfolioInserts(id, items, upload, faults, |items|))
  {
    db' := db;
    var k := 0;
    while k < |items|
      invariant 0 <= k <= |items|
      invariant db' == db.(portfolioItems := db.portfolioItems + PortfolioInserts(id, items, upload, faults, k))
    {
      var item := items[k];
      if item.title != "" {
        var imageUrl := item.imageUrl;
        if item.imageFile.Some? {
          imageUrl := OrNull(upload(k));
        }
        var row := Row(id, PortfolioFields(item.title, OrNull(Some(item.description)), imageUrl, OrNull(item.link)));
        assert row == DraftRow(id, item, upload(k));
        if InsertPortfolioItem(k) !in faults {
          db' := db'.(portfolioItems := db'.portfolioItems + [row]);
        }
      }
      k := k + 1;
    }
  }

  /** The tables after a save whose card insert succeeded. */
  function SavedDb(db: Db, userId: string, newId: string, d: CardFormData, suffix: string,
                   upload: nat -> Option<string>, faults: set<Step>): Db
  {
    Db(db.cards[newId := NewCardRow(newId, userId, d, UniqueSlug(d.name, suffix))],
       db.socialLinks + (if InsertSocials in faults then [] else SocialRows(newId, d.socials)),
       db.portfolioItems + PortfolioInserts(newId, d.portfolio, upload, faults, |d.portfolio|))
  }

  class CardForm {
    var data: CardFormData
    var errors: map<Field, string>

    /** Every recorded error has a message, so the truthiness test on it sees every key. */
    predicate Valid()
      reads this
    {
      forall f :: f in errors ==> errors[f] != ""
    }

    constructor ()
      ensures data == InitialForm() && errors == map[]
      ensures Valid()
    {
      data := InitialForm();
      errors := map[];
    }

    /** `validateForm`: records the errors of the filled fields whose pattern fails and
        reports whether there are none. Nothing calls it before a save. */
    method ValidateForm() returns (ok: bool)
      modifies this
      ensures data == old(data) && Valid()
      ensures forall f :: f in errors <==> Flagged(data, f)
      ensures forall f :: f in errors ==> errors[f] == ErrorMessage(f)
      ensures ok <==> errors == map[]
      ensures ok <==> forall f :: !Flagged(data, f)
    {
      errors := CollectErrors(data);
      ok := |errors| == 0;
      if !ok {
        var f :| f in errors;
        assert Flagged(data, f);
      }
    }

    /** `handleInputChange`: the input takes the value and its own error, if any, is dropped. */
    method HandleInputChange(f: Field, value: string)
      modifies this
      requires Valid()
      ensures data == SetField(old(data), f, value)
      ensures errors == old(errors) - {f}
      ensures Valid()
    {
      data := SetField(data, f, value);
      if f in errors && errors[f] != "" {
        errors := errors - {f};
      } else {
        assert errors - {f} == errors;
      }
    }

    /** `handleSocialChange`. */
    method HandleSocialChange(index: int, field: SocialField, value: string)
      modifies this
      requires 0 <= index < |data.socials|
      ensures data == old(data).(socials := old(data.socials)[index := SetSocialField(old(data.socials)[index], field, value)])
      ensures errors == old(errors)
    {
      var updated := data.socials;
      updated := updated[index := SetSocialField(updated[index], field, value)];
      data := data.(socials := updated);
    }

    /** `addSocialLink`. */
    method AddSocialLink()
      modifies this
      ensures data == old(data).(socials := old(data.socials) + [NEW_SOCIAL])
      ensures errors == old(errors)
    {
      data := data.(socials := data.socials + [NEW_SOCIAL]);
    }

    /** `removeSocialLink`. */
    method RemoveSocialLink(index: int)
      modifies this
      ensures data == old(data).(socials := RemoveAt(old(data.socials), index))
      ensures errors == old(errors)
    {
      data := data.(socials := RemoveAt(data.socials, index));
    }

    /** `handlePhotoUpload`: a file over 2 MiB is refused and the form is left as it was. */
    method HandlePhotoUpload(file: Option<File>) returns (read: ImageRead)
      modifies this
      ensures read == GuardedRead(file)
      ensures read.Read? ==> data == old(data).(photo := read.dataUrl)
      ensures !read.Read? ==> data == old(data)
      ensures errors == old(errors)
    {
      read := GuardedRead(file);
      if read.Read? {
        data := data.(photo := read.dataUrl);
      }
    }

    /** `handleLogoUpload`, with the same guard. */
    method HandleLogoUpload(file: Option<File>) returns (read: ImageRead)
      modifies this
      ensures read == GuardedRead(file)
      ensures read.Read? ==> data == old(data).(logo := read.dataUrl)
      ensures !read.Read? ==> data == old(data)
      ensures errors == old(errors)
    {
      read := GuardedRead(file);
      if read.Read? {
        data := data.(logo := read.dataUrl);
      }
    }

    /** `handleTemplateChange`. */
    method HandleTemplateChange(v: Variant)
      modifies this
      ensures data == old(data).(variant := v)
      ensures errors == old(errors)
    {
      data := data.(variant := v);
    }

    /** `handleAddPortfolioItem`: an empty draft with an empty link and no image. */
    method HandleAddPortfolioItem()
      modifies this
      ensures data == old(data).(portfolio := old(data.portfolio) + [PortfolioDraft("", "", None, None, Some(""))])
      ensures errors == old(errors)
    {
      data := data.(portfolio := data.portfolio + [PortfolioDraft("", "", None, None, Some(""))]);
    }

    /** `handleRemovePortfolioItem`. */
    method HandleRemovePortfolioItem(index: int)
      modifies this
      ensures data == old(data).(portfolio := RemoveAt(old(data.portfolio), index))
      ensures errors == old(errors)
    {
      data := data.(portfolio := RemoveAt(data.portfolio, index));
    }

    /** `handlePortfolioItemChange` for the title, description and link inputs. */
    method HandlePortfolioItemChange(index: int, field: DraftField, value: string)
      modifies this
      requires 0 <= index < |data.portfolio|
      ensures |data.portfolio| == |old(data.portfolio)|
      ensures data == old(data).(portfolio := data.portfolio)
      ensures forall k :: 0 <= k < |data.portfolio| && k != index ==> data.portfolio[k] == old(data.portfolio)[k]
      ensures var was := old(data.portfolio)[index];
        data.portfolio[index] ==
          match field
          case DraftTitle => was.(title := value)
          case DraftDescription => was.(description := value)
          case DraftLink => was.(link := Some(value))
      ensures errors == old(errors)
    {
      var updated := data.portfolio;
      var item := updated[index];
      match field {
        case DraftTitle => item := item.(title := value);
        case DraftDescription => item := item.(description := value);
        case DraftLink => item := item.(link := Some(value));
      }
      updated := updated[index := item];
      data := data.(portfolio := updated);
    }

    /** `handlePortfolioImageUpload`: no size guard here; the draft keeps the preview and the file. */
    method HandlePortfolioImageUpload(file: Option<File>, index: int) returns (read: ImageRead)
      modifies this
      requires 0 <= index < |data.portfolio|
      ensures read == UnguardedRead(file)
      ensures file.None? ==> data == old(data)
      ensures file.Some? ==> data == old(data).(portfolio := old(data.portfolio)[index :=
                old(data.portfolio)[index].(imageUrl := Some(file.value.dataUrl), imageFile := file)])
      ensures errors == old(errors)
    {
      read := UnguardedRead(file);
      if file.Some? {
        var updated := data.portfolio;
        updated := updated[index := updated[index].(imageUrl := Some(file.value.dataUrl), imageFile := file)];
        data := data.(portfolio := updated);
      }
    }

    /** `saveCard`. `session` is the signed-in user's id, `suffix` the random slug suffix,
        `newId` the id the database gives the new row (an id already taken fails the insert),
        `upload(k)` what uploading draft `k`'s file returns, and `faults` the calls that fail.
        Failures after the card insert are only logged, so they drop rows but never the card. */
    method SaveCard(db: Db, session: Option<string>, suffix: string, newId: string,
                    upload: nat -> Option<string>, faults: set<Step>) returns (db': Db, result: SaveResult)
      ensures session.None? ==> result == NotSignedIn && db' == db
      ensures session.Some? && (InsertCard in faults || newId in db.cards) ==>
        result == CardInsertFailed && db' == db
      ensures session.Some? && InsertCard !in faults && newId !in db.cards ==>
        && result == Saved(UniqueSlug(data.name, suffix))
        && db' == SavedDb(db, session.value, newId, data, suffix, upload, faults)
    {
      if session.None? {
        return db, NotSignedIn;
      }
      var userId := session.value;
      var slug := UniqueSlug(data.name, suffix);
      if InsertCard in faults || newId in db.cards {
        return db, CardInsertFailed;
      }
      db' := db.(cards := db.cards[newId := NewCardRow(newId, userId, data, slug)]);

      if |data.socials| > 0 {
        var rows := SocialRows(newId, data.socials);
        if |rows| > 0 && InsertSocials !in faults {
          db' := db'.(socialLinks := db'.socialLinks + rows);
        }
      }

      db' := InsertPortfolioDrafts(db', newId, data.portfolio, upload, faults);
      result := Saved(slug);
    }
  }

  // ---- what a save writes ----

  /** The new card row is published, carries the form's texts unchanged, and its slug is the
      clean base slug of the name, a dash and the suffix. */
  lemma NewCardRowShape(id: string, userId: string, d: CardFormData, suffix: string)
    ensures var row := NewCardRow(id, userId, d, UniqueSlug(d.name, suffix));
      && row.id == id && row.userId == userId && row.name == d.name
      && row.published == Some(true) && row.template == VariantName(d.variant)
      && row.location == Some(d.location) && row.email == Some(d.email)
      && row.slug.Some? && row.slug.value == BaseSlug(d.name) + "-" + suffix
      && IsCleanSlug(BaseSlug(d.name))
  {
    BaseSlugClean(d.name);
  }

  /** After a save, the new card owns exactly the social links whose url is not blank, in
      form order (none if that insert failed), and every other card keeps its links. */
  lemma SavedSocialLinks(db: Db, userId: string, newId: string, d: CardFormData, suffix: string,
                         upload: nat -> Option<string>, faults: set<Step>)
    requires RowsOf(db.socialLinks, newId) == []
    ensures var links := SavedDb(db, userId, newId, d, suffix, upload, faults).socialLinks;
      && (InsertSocials !in faults ==> RowsOf(links, newId) == SocialRows(newId, d.socials))
      && (InsertSocials in faults ==> RowsOf(links, newId) == [])
      && forall c :: c != newId ==> RowsOf(links, c) == RowsOf(db.socialLinks, c)
  {
    var added := if InsertSocials in faults then [] else SocialRows(newId, d.socials);
    assert SavedDb(db, userId, newId, d, suffix, upload, faults).socialLinks == db.socialLinks + added;
    AppendOwnRows(db.socialLinks, newId, added);
  }

  lemma {:induction false} PortfolioInsertsAll(id: string, items: seq<PortfolioDraft>,
                                               upload: nat -> Option<string>, faults: set<Step>, n: nat)
    requires n <= |items| && NoItemFaults(faults)
    ensures RowTitles(PortfolioInserts(id, items, upload, faults, n)) == DraftTitles(Seqs.Filter(items[..n], HasTitle))
  {
    if n > 0 {
      PortfolioInsertsAll(id, items, upload, faults, n - 1);
      var item := items[n - 1];
      assert InsertPortfolioItem(n - 1) !in faults;
      var prev := PortfolioInserts(id, items, upload, faults, n - 1);
      var last := if HasTitle(item) then [DraftRow(id, item, upload(n - 1))] else [];
      assert PortfolioInserts(id, items, upload, faults, n) == prev + last;
      assert items[..n] == items[..n - 1] + [item];
      Seqs.FilterAppend(items[..n - 1], [item], HasTitle);
      var kept := Seqs.Filter([item], HasTitle);
      assert kept == if HasTitle(item) then [item] else [];
      assert RowTitles(last) == DraftTitles(kept);
      RowTitlesAppend(prev, last);
      DraftTitlesAppend(Seqs.Filter(items[..n - 1], HasTitle), kept);
    }
  }

  lemma RowTitlesAppend(a: seq<Row<PortfolioFields>>, b: seq<Row<PortfolioFields>>)
    ensures RowTitles(a + b) == RowTitles(a) + RowTitles(b)
  {
  }

  lemma DraftTitlesAppend(a: seq<PortfolioDraft>, b: seq<PortfolioDraft>)
    ensures DraftTitles(a + b) == DraftTitles(a) + DraftTitles(b)
  {
  }

  /** When no item insert fails, the new card's portfolio is one row per draft with a
      non-empty title, in form order. */
  lemma SavedPortfolioTitles(db: Db, userId: string, newId: string, d: CardFormData, suffix: string,
                             upload: nat -> Option<string>, faults: set<Step>)
    requires RowsOf(db.portfolioItems, newId) == [] && NoItemFaults(faults)
    ensures var items := SavedDb(db, userId, newId, d, suffix, upload, faults).portfolioItems;
      && RowTitles(RowsOf(items, newId)) == DraftTitles(Seqs.Filter(d.portfolio, HasTitle))
      && forall c :: c != newId ==> RowsOf(items, c) == RowsOf(db.portfolioItems, c)
  {
    var added := PortfolioInserts(newId, d.portfolio, upload, faults, |d.portfolio|);
    AppendOwnRows(db.portfolioItems, newId, added);
    PortfolioInsertsAll(newId, d.portfolio, upload, faults, |d.portfolio|);
    assert d.portfolio[..|d.portfolio|] == d.portfolio;
  }

  /** The truthiness test keeps a title made only of spaces; the edit page trims it away. */
  lemma BlankTitleIsSaved(id: string, upload: nat -> Option<string>)
    ensures var items := [PortfolioDraft(" ", "", None, None, None)];
      PortfolioInserts(id, items, upload, {}, 1) == [Row(id, PortfolioFields(" ", None, None, None))]
  {
  }
}
