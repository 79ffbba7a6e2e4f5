/** The edit page (src/pages/EditCard.tsx): loading a card into the editor, the list
    handlers, the save that updates the card and replaces its children, the contact file,
    and deleting the card. */
module EditCard {
  import opened Wrappers
  import opened Text
  import Seqs
  import opened Slug
  import opened Store
  import opened Forms
  import VCard

  /** A portfolio entry of the editor; the optional texts are as loaded, null included. */
  datatype PortfolioEntry = PortfolioEntry(
    title: string,
    description: Option<string>,
    link: Option<string>,
    imageUrl: Option<string>)

  datatype EntryField = EntryTitle | EntryDescription | EntryLink

  /** Everything the editor holds; the template is a bare string because loading casts it unchecked. */
  datatype EditorState = EditorState(
    name: string,
    title: string,
    bio: string,
    photo: string,
    logo: string,
    email: string,
    phone: string,
    location: string,
    website: string,
    socials: seq<SocialLink>,
    portfolio: seq<PortfolioEntry>,
    published: bool,
    variant: string)

  // ---- fetchCardData ----

  function SocialsOfRows(rows: seq<Row<SocialFields>>): (socials: seq<SocialLink>)
    ensures |socials| == |rows|
    ensures forall k :: 0 <= k < |rows| ==>
      socials[k] == SocialLink(rows[k].fields.network, rows[k].fields.url)
  {
    if rows == [] then []
    else [SocialLink(rows[0].fields.network, rows[0].fields.url)] + SocialsOfRows(rows[1..])
  }

  function EntriesOfRows(rows: seq<Row<PortfolioFields>>): (entries: seq<PortfolioEntry>)
    ensures |entries| == |rows|
    ensures forall k :: 0 <= k < |rows| ==>
      var f := rows[k].fields;
      entries[k] == PortfolioEntry(f.title, f.description, f.link, f.imageUrl)
  {
    if rows == [] then []
    else
      var f := rows[0].fields;
      [PortfolioEntry(f.title, f.description, f.link, f.imageUrl)] + EntriesOfRows(rows[1..])
  }

  /** What the editor shows for a stored card and its rows: a null text is shown empty,
      and the card counts as published unless the stored flag is exactly `false`. */
  function LoadedState(card: CardRow, socialRows: seq<Row<SocialFields>>,
                       portfolioRows: seq<Row<PortfolioFields>>): (st: EditorState)
    ensures st.published <==> card.published != Some(false)
    ensures st.location == "" <==> card.location.None? || card.location == Some("")
    ensures card.title.Some? ==> st.title == card.title.value
    ensures st.variant == card.template && st.name == card.name
    ensures st.socials == SocialsOfRows(socialRows) && st.portfolio == EntriesOfRows(portfolioRows)
  {
    EditorState(card.name, card.title.GetOr(""), card.bio.GetOr(""), card.photoUrl.GetOr(""),
      card.logoUrl.GetOr(""), card.email.GetOr(""), card.phone.GetOr(""),
      card.location.GetOr(""), card.website.GetOr(""),
      SocialsOfRows(socialRows), EntriesOfRows(portfolioRows),
      card.published != Some(false), card.template)
  }

  // ---- handleSave ----

  /** `updateData`. */
  datatype CardUpdate = CardUpdate(
    name: string,
    title: string,
    bio: string,
    photoUrl: string,
    logoUrl: string,
    email: string,
    phone: string,
    location: Option<string>,
    website: string,
    published: bool,
    template: string,
    updatedAt: string,
    slug: Option<string>)

  /** The update payload at time `now`: location is null when empty, a slug is present
      only when the name is non-empty, and every other field is copied as it stands. */
  function UpdateOf(st: EditorState, now: string, suffix: string): (u: CardUpdate)
    ensures u.location.None? <==> st.location == ""
    ensures u.location.Some? ==> u.location.value == st.location
    ensures u.slug.None? <==> st.name == ""
    ensures u.slug.Some? ==> u.slug.value == UniqueSlug(st.name, suffix)
    ensures && u.name == st.name && u.title == st.title && u.bio == st.bio && u.photoUrl == st.photo
            && u.logoUrl == st.logo && u.email == st.email && u.phone == st.phone && u.website == st.website
            && u.published == st.published && u.template == st.variant && u.updatedAt == now
  {
    CardUpdate(st.name, st.title, st.bio, st.photo, st.logo, st.email, st.phone,
      if st.location == "" then None else Some(st.location),
      st.website, st.published, st.variant, now,
      if st.name != "" then Some(UniqueSlug(st.name, suffix)) else None)
  }

  /** The row after `.update(updateData)`: the keys given are written, the absent slug key
      leaves the stored slug alone, and id and owner never change. */
  function ApplyUpdate(row: CardRow, u: CardUpdate): (r: CardRow)
    ensures r.id == row.id && r.userId == row.userId
    ensures u.slug.None? ==> r.slug == row.slug
    ensures u.slug.Some? ==> r.slug == u.slug
    ensures r.location == u.location && r.published == Some(u.published)
  {
    row.(name := u.name, title := Some(u.title), bio := Some(u.bio), photoUrl := Some(u.photoUrl),
         logoUrl := Some(u.logoUrl), email := Some(u.email), phone := Some(u.phone),
         location := u.location, website := Some(u.website), published := Some(u.published),
         template := u.template, updatedAt := Some(u.updatedAt),
         slug := if u.slug.Some? then u.slug else row.slug)
  }

  /** `.update(...).eq('id', id)`: no row matches a missing id, which is not an error. */
  function UpdateCardRow(db: Db, id: string, u: CardUpdate): (r: Db)
    ensures r.socialLinks == db.socialLinks && r.portfolioItems == db.portfolioItems
    ensures r.cards.Keys == db.cards.Keys
    ensures forall c :: c in db.cards && c != id ==> r.cards[c] == db.cards[c]
    ensures id in db.cards ==> r.cards[id] == ApplyUpdate(db.cards[id], u)
  {
    if id in db.cards then db.(cards := db.cards[id := ApplyUpdate(db.cards[id], u)]) else db
  }

  /** `item.title.trim() !== ''`. */
  predicate HasTrimmedTitle(e: PortfolioEntry) {
    Trim(e.title) != ""
  }

  /** The row of an entry: empty optional texts become null. */
  function EntryRow(id: string, e: PortfolioEntry): Row<PortfolioFields> {
    Row(id, PortfolioFields(e.title, OrNull(e.description), OrNull(e.imageUrl), OrNull(e.link)))
  }

  /** `portfolioData`: the entries with a non-blank title, in order, as rows of card `id`. */
  function EntryRows(id: string, entries: seq<PortfolioEntry>): (rows: seq<Row<PortfolioFields>>)
    ensures |rows| == |Seqs.Filter(entries, HasTrimmedTitle)|
    ensures AllOwnedBy(rows, id)
    ensures forall k :: 0 <= k < |rows| ==> Trim(rows[k].fields.title) != ""
  {
    if entries == [] then []
    else (if HasTrimmedTitle(entries[0]) then [EntryRow(id, entries[0])] else []) + EntryRows(id, entries[1..])
  }

  /** A saved row's optional texts are null exactly when they were empty or absent. */
  lemma EntryRowNulls(id: string, e: PortfolioEntry)
    ensures var f := EntryRow(id, e).fields;
      && (f.description.None? <==> e.description.None? || e.description == Some(""))
      && (f.imageUrl.None? <==> e.imageUrl.None? || e.imageUrl == Some(""))
      && (f.link.None? <==> e.link.None? || e.link == Some(""))
      && f.title == e.title
  {
  }

  datatype SaveTrace = SaveTrace(db: Db, outcome: Outcome)

  /** The save's calls after the card update: delete the card's social links, insert the
      kept ones, delete its portfolio items, insert the kept ones, stopping at the first
      error. An insert is skipped when it has no rows, and fails when its call fails or when
      the card it points to is missing (the foreign key on `card_id`). */
  function ChildrenRun(db: Db, id: string, socials: seq<SocialLink>, entries: seq<PortfolioEntry>,
                       faults: set<Step>): (r: SaveTrace)
    ensures r.outcome.Done? || r.outcome.Failed?
    ensures r.db.cards == db.cards
    ensures r.outcome == Failed(DeleteSocials) <==> DeleteSocials in faults
    ensures r.outcome == Failed(DeleteSocials) ==> r.db == db
    ensures r.outcome in {Failed(InsertSocials), Failed(DeletePortfolio)} ==> r.db.portfolioItems == db.portfolioItems
    ensures r.outcome == Done ==>
      && DeleteSocials !in faults && DeletePortfolio !in faults
      && (SocialRows(id, socials) != [] ==> InsertSocials !in faults && id in db.cards)
      && (EntryRows(id, entries) != [] ==> InsertPortfolio !in faults && id in db.cards)
      && r.db.socialLinks == RowsNotOf(db.socialLinks, id) + SocialRows(id, socials)
      && r.db.portfolioItems == RowsNotOf(db.portfolioItems, id) + EntryRows(id, entries)
  {
    var socialRows := SocialRows(id, socials);
    var portfolioRows := EntryRows(id, entries);
    var d2 := db.(socialLinks := RowsNotOf(db.socialLinks, id));
    var d3 := d2.(socialLinks := d2.socialLinks + socialRows);
    var d4 := d3.(portfolioItems := RowsNotOf(d3.portfolioItems, id));
    var d5 := d4.(portfolioItems := d4.portfolioItems + portfolioRows);
    if DeleteSocials in faults then SaveTrace(db, Failed(DeleteSocials))
    else if socialRows != [] && (InsertSocials in faults || id !in db.cards) then SaveTrace(d2, Failed(InsertSocials))
    else if DeletePortfolio in faults then SaveTrace(d3, Failed(DeletePortfolio))
    else if portfolioRows != [] && (InsertPortfolio in faults || id !in db.cards) then SaveTrace(d4, Failed(InsertPortfolio))
    else SaveTrace(d5, Done)
  }

  /** The whole save: the card update first; when it fails nothing else runs. */
  function SaveRun(db: Db, id: string, st: EditorState, now: string, suffix: string,
                   faults: set<Step>): (r: SaveTrace)
    ensures r.outcome == Failed(UpdateCard) <==> UpdateCard in faults
    ensures UpdateCard in faults ==> r.db == db
    ensures r.outcome in {Failed(UpdateCard), Failed(DeleteSocials)} ==>
      r.db.socialLinks == db.socialLinks && r.db.portfolioItems == db.portfolioItems
  {
    if UpdateCard in faults then SaveTrace(db, Failed(UpdateCard))
    else ChildrenRun(UpdateCardRow(db, id, UpdateOf(st, now, suffix)), id, st.socials, st.portfolio, faults)
  }

  /** The child-table half of `handleSave`, as the page runs it. */
  method ReplaceChildren(db: Db, id: string, socials: seq<SocialLink>, entries: seq<PortfolioEntry>,
                         faults: set<Step>) returns (db': Db, outcome: Outcome)
    ensures SaveTrace(db', outcome) == ChildrenRun(db, id, socials, entries, faults)
  {
    if DeleteSocials in faults {
      return db, Failed(DeleteSocials);
    }
    db' := db.(socialLinks := RowsNotOf(db.socialLinks, id));
    if |socials| > 0 {
      var rows := SocialRows(id, socials);
      if |rows| > 0 {
        if InsertSocials in faults || id !in db'.cards {
          return db', Failed(InsertSocials);
        }
        db' := db'.(socialLinks := db'.socialLinks + rows);
      }
    }
    assert db'.socialLinks == RowsNotOf(db.socialLinks, id) + SocialRows(id, socials);
    if DeletePortfolio in faults {
      return db', Failed(DeletePortfolio);
    }
    db' := db'.(portfolioItems := RowsNotOf(db'.portfolioItems, id));
    if |entries| > 0 {
      var rows := EntryRows(id, entries);
      if |rows| > 0 {
        if InsertPortfolio in faults || id !in db'.cards {
          return db', Failed(InsertPortfolio);
        }
        db' := db'.(portfolioItems := db'.portfolioItems + rows);
      }
    }
    assert db'.portfolioItems == RowsNotOf(db.portfolioItems, id) + EntryRows(id, entries);
    outcome := Done;
  }

  /** The contact file of `handleAddToContacts`, whose line array is written out again in the page. */
  function AddToContacts(st: EditorState): (file: VCard.Download)
    ensures file.fileName == st.name + ".vcf" && file.mimeType == "text/vcard"
    ensures file.content == VCard.Payload(ContactOf(st))
  {
    var lines := [
      "BEGIN:VCARD",
      "VERSION:3.0",
      "FN:" + st.name,
      if st.title != "" then "TITLE:" + st.title else "",
      if st.email != "" then "EMAIL:" + st.email else "",
      if st.phone != "" then "TEL:" + st.phone else "",
      if st.website != "" then "URL:https://" + st.website else "",
      if st.location != "" then "ADR:;;" + st.location else "",
      "END:VCARD"];
    assert lines == VCard.Lines(ContactOf(st));
    VCard.Download(st.name + ".vcf", "text/vcard", Join(lines, '\n'))
  }

  function ContactOf(st: EditorState): VCard.VCardData {
    VCard.VCardData(st.name, st.title, st.email, st.phone, st.website, st.location)
  }

  // ---- the editor ----

  class CardEditor {
    /** The route's `id`, if there is one. */
    const cardId: Option<string>

    var name: string
    var title: string
    var bio: string
    var photo: string
    var logo: string
    var email: string
    var phone: string
    var location: string
    var website: string
    var socials: seq<SocialLink>
    var portfolioItems: seq<PortfolioEntry>
    var published: bool
    var variant: string

    function State(): EditorState
      reads this
    {
      EditorState(name, title, bio, photo, logo, email, phone, location, website,
        socials, portfolioItems, published, variant)
    }

    constructor (id: Option<string>)
      ensures cardId == id
      ensures State() == EditorState("", "", "", "", "", "", "", "", "", [], [], true, "default")
    {
      cardId := id;
      name, title, bio, photo, logo := "", "", "", "", "";
      email, phone, location, website := "", "", "", "";
      socials, portfolioItems := [], [];
      published, variant := true, "default";
    }

    /** `fetchCardData`: the three selects come first, so a failed one or a missing card
        leaves the editor as it was. */
    method FetchCardData(db: Db, id: string, faults: set<Step>) returns (loaded: bool)
      modifies this
      ensures loaded <==> SelectCard !in faults && id in db.cards && SelectSocials !in faults && SelectPortfolio !in faults
      ensures loaded ==> State() == LoadedState(db.cards[id], RowsOf(db.socialLinks, id), RowsOf(db.portfolioItems, id))
      ensures !loaded ==> State() == old(State())
    {
      if SelectCard in faults || id !in db.cards {
        return false;
      }
      var card := db.cards[id];
      if SelectSocials in faults {
        return false;
      }
      var socialRows := RowsOf(db.socialLinks, id);
      if SelectPortfolio in faults {
        return false;
      }
      var portfolioRows := RowsOf(db.portfolioItems, id);
      name := card.name;
      title := card.title.GetOr("");
      bio := card.bio.GetOr("");
      photo := card.photoUrl.GetOr("");
      location := card.location.GetOr("");
      email := card.email.GetOr("");
      phone := card.phone.GetOr("");
      website := card.website.GetOr("");
      published := card.published != Some(false);
      logo := card.logoUrl.GetOr("");
      variant := card.template;
      socials := SocialsOfRows(socialRows);
      portfolioItems := EntriesOfRows(portfolioRows);
      loaded := true;
    }

    /** `handleSave`, run at time `now` with the random `suffix`. Without a route id nothing happens. */
    method HandleSave(db: Db, now: string, suffix: string, faults: set<Step>) returns (db': Db, outcome: Outcome)
      ensures cardId.None? ==> db' == db && outcome == Skipped
      ensures cardId.Some? ==> SaveTrace(db', outcome) == SaveRun(db, cardId.value, State(), now, suffix, faults)
    {
      if cardId.None? {
        return db, Skipped;
      }
      var id := cardId.value;
      var updateData := CardUpdate(name, title, bio, photo, logo, email, phone,
        if location == "" then None else Some(location),
        website, published, variant, now, None);
      if name != "" {
        updateData := updateData.(slug := Some(UniqueSlug(name, suffix)));
      }
      assert updateData == UpdateOf(State(), now, suffix);
      if UpdateCard in faults {
        return db, Failed(UpdateCard);
      }
      db' := UpdateCardRow(db, id, updateData);
      db', outcome := ReplaceChildren(db', id, socials, portfolioItems, faults);
    }

    /** `handleSocialChange`. */
    method HandleSocialChange(index: int, field: SocialField, value: string)
      modifies this
      requires 0 <= index < |socials|
      ensures State() == old(State()).(socials := old(socials)[index := SetSocialField(old(socials)[index], field, value)])
    {
      var updated := socials;
      updated := updated[index := SetSocialField(updated[index], field, value)];
      socials := updated;
    }

    /** `addSocialLink`. */
    method AddSocialLink()
      modifies this
      ensures State() == old(State()).(socials := old(socials) + [NEW_SOCIAL])
    {
      socials := socials + [NEW_SOCIAL];
    }

    /** `removeSocialLink`. */
    method RemoveSocialLink(index: int)
      modifies this
      ensures State() == old(State()).(socials := RemoveAt(old(socials), index))
    {
      socials := RemoveAt(socials, index);
    }

    /** `handlePhotoUpload`: unlike the create page, no size guard. */
    method HandlePhotoUpload(file: Option<File>) returns (read: ImageRead)
      modifies this
      ensures read == UnguardedRead(file)
      ensures file.Some? ==> State() == old(State()).(photo := file.value.dataUrl)
      ensures file.None? ==> State() == old(State())
    {
      read := UnguardedRead(file);
      if read.Read? {
        photo := read.dataUrl;
      }
    }

    /** `handleLogoUpload`: no size guard either. */
    method HandleLogoUpload(file: Option<File>) returns (read: ImageRead)
      modifies this
      ensures read == UnguardedRead(file)
      ensures file.Some? ==> State() == old(State()).(logo := file.value.dataUrl)
      ensures file.None? ==> State() == old(State())
    {
      read := UnguardedRead(file);
      if read.Read? {
        logo := read.dataUrl;
      }
    }

    /** `handleTemplateChange`. */
    method HandleTemplateChange(v: Variant)
      modifies this
      ensures State() == old(State()).(variant := VariantName(v))
    {
      variant := VariantName(v);
    }

    /** `handleAddPortfolioItem`: an entry with empty title, description and link. */
    method HandleAddPortfolioItem()
      modifies this
      ensures State() == old(State()).(portfolio := old(portfolioItems) + [PortfolioEntry("", Some(""), Some(""), None)])
    {
      portfolioItems := portfolioItems + [PortfolioEntry("", Some(""), Some(""), None)];
    }

    /** `handleRemovePortfolioItem`. */
    method HandleRemovePortfolioItem(index: int)
      modifies this
      ensures State() == old(State()).(portfolio := RemoveAt(old(portfolioItems), index))
    {
      portfolioItems := RemoveAt(portfolioItems, index);
    }

    /** `handlePortfolioItemChange` for the title, description and link inputs. */
    method HandlePortfolioItemChange(index: int, field: EntryField, value: string)
      modifies this
      requires 0 <= index < |portfolioItems|
      ensures var was := old(portfolioItems)[index];
        State() == old(State()).(portfolio := old(portfolioItems)[index :=
          match field
          case EntryTitle => was.(title := value)
          case EntryDescription => was.(description := Some(value))
          case EntryLink => was.(link := Some(value))])
    {
      var updated := portfolioItems;
      var item := updated[index];
      match field {
        case EntryTitle => item := item.(title := value);
        case EntryDescription => item := item.(description := Some(value));
        case EntryLink => item := item.(link := Some(value));
      }
      updated := updated[index := item];
      portfolioItems := updated;
    }

    /** `handlePortfolioImageUpload`: a file over 2 MiB is refused and the list is left as it was. */
    method HandlePortfolioImageUpload(file: Option<File>, index: int) returns (read: ImageRead)
      modifies this
      requires 0 <= index < |portfolioItems|
      ensures read == GuardedRead(file)
      ensures read.Read? ==> State() == old(State()).(portfolio := old(portfolioItems)[index :=
                old(portfolioItems)[index].(imageUrl := Some(read.dataUrl))])
      ensures !read.Read? ==> State() == old(State())
    {
      read := GuardedRead(file);
      if read.Read? {
        var updated := portfolioItems;
        updated := updated[index := updated[index].(imageUrl := Some(read.dataUrl))];
        portfolioItems := updated;
      }
    }

    /** `handleDeleteCard`: without a route id or a confirmation nothing is deleted. */
    method HandleDeleteCard(db: Db, confirmed: bool, faults: set<Step>) returns (db': Db, outcome: Outcome)
      ensures cardId.None? || !confirmed ==> db' == db && outcome == Skipped
      ensures cardId.Some? && confirmed && outcome == Done ==> db' == Deleted(db, cardId.value)
      ensures cardId.Some? && confirmed ==>
        (outcome == Done <==> DeleteSocials !in faults && DeletePortfolio !in faults && DeleteCard !in faults)
      ensures cardId.Some? && confirmed && DeleteSocials in faults ==>
        db' == db && outcome == Failed(DeleteSocials)
      ensures cardId.Some? && confirmed && DeleteSocials !in faults && DeletePortfolio in faults ==>
        && db' == db.(socialLinks := RowsNotOf(db.socialLinks, cardId.value))
        && outcome == Failed(DeletePortfolio)
      ensures cardId.Some? && confirmed && DeleteSocials !in faults && DeletePortfolio !in faults
              && DeleteCard in faults ==>
        && db' == db.(socialLinks := RowsNotOf(db.socialLinks, cardId.value),
                      portfolioItems := RowsNotOf(db.portfolioItems, cardId.value))
        && outcome == Failed(DeleteCard)
    {
      if cardId.None? || !confirmed {
        return db, Skipped;
      }
      db', outcome := DeleteCardCascade(db, cardId.value, faults);
    }
  }

  // ---- what a save does ----

  lemma {:induction false} EntryRowsAreKept(id: string, entries: seq<PortfolioEntry>)
    ensures var kept := Seqs.Filter(entries, HasTrimmedTitle);
      forall k :: 0 <= k < |kept| ==> EntryRows(id, entries)[k] == EntryRow(id, kept[k])
  {
    if entries != [] {
      EntryRowsAreKept(id, entries[1..]);
    }
  }

  /** After a completed save the card's social links and portfolio items are exactly the
      kept ones, in editor order, every other card's rows are as they were, and the card
      row carries the update. */
  lemma SaveReplacesChildren(db: Db, id: string, st: EditorState, now: string, suffix: string, faults: set<Step>)
    requires SaveRun(db, id, st, now, suffix, faults).outcome == Done
    ensures var db' := SaveRun(db, id, st, now, suffix, faults).db;
      && RowsOf(db'.socialLinks, id) == SocialRows(id, st.socials)
      && RowsOf(db'.portfolioItems, id) == EntryRows(id, st.portfolio)
      && (forall c :: c != id ==> RowsOf(db'.socialLinks, c) == RowsOf(db.socialLinks, c))
      && (forall c :: c != id ==> RowsOf(db'.portfolioItems, c) == RowsOf(db.portfolioItems, c))
      && db'.cards == UpdateCardRow(db, id, UpdateOf(st, now, suffix)).cards
  {
    ReplaceRows(db.socialLinks, id, SocialRows(id, st.socials));
    ReplaceRows(db.portfolioItems, id, EntryRows(id, st.portfolio));
  }

  /** A save with an empty name keeps the stored slug; with a name it stores a fresh one
      built from the name and the suffix. */
  lemma SaveSlug(db: Db, id: string, st: EditorState, now: string, suffix: string, faults: set<Step>)
    requires id in db.cards && UpdateCard !in faults
    ensures var db' := SaveRun(db, id, st, now, suffix, faults).db;
      && id in db'.cards
      && (st.name == "" ==> db'.cards[id].slug == db.cards[id].slug)
      && (st.name != "" ==> db'.cards[id].slug == Some(UniqueSlug(st.name, suffix)))
  {
  }

  function ReloadedEntry(e: PortfolioEntry): PortfolioEntry {
    PortfolioEntry(e.title, OrNull(e.description), OrNull(e.link), OrNull(e.imageUrl))
  }

  function ReloadedEntries(entries: seq<PortfolioEntry>): (r: seq<PortfolioEntry>)
    ensures |r| == |entries|
    ensures forall k :: 0 <= k < |entries| ==> r[k] == ReloadedEntry(entries[k])
  {
    if entries == [] then [] else [ReloadedEntry(entries[0])] + ReloadedEntries(entries[1..])
  }

  lemma {:induction false} SocialsRoundTrip(id: string, socials: seq<SocialLink>)
    ensures SocialsOfRows(SocialRows(id, socials)) == Seqs.Filter(socials, HasUrl)
  {
    if socials != [] {
      SocialsRoundTrip(id, socials[1..]);
      var head := if HasUrl(socials[0]) then [SocialRow(id, socials[0])] else [];
      assert SocialRows(id, socials) == head + SocialRows(id, socials[1..]);
      SocialsOfRowsAppend(head, SocialRows(id, socials[1..]));
    }
  }

  lemma SocialsOfRowsAppend(a: seq<Row<SocialFields>>, b: seq<Row<SocialFields>>)
    ensures SocialsOfRows(a + b) == SocialsOfRows(a) + SocialsOfRows(b)
  {
    var l, r := SocialsOfRows(a + b), SocialsOfRows(a) + SocialsOfRows(b);
    forall k | 0 <= k < |l|
      ensures l[k] == r[k]
    {
      if k < |a| {
        assert (a + b)[k] == a[k];
      } else {
        assert (a + b)[k] == b[k - |a|];
      }
    }
  }

  lemma EntriesOfRowsAppend(a: seq<Row<PortfolioFields>>, b: seq<Row<PortfolioFields>>)
    ensures EntriesOfRows(a + b) == EntriesOfRows(a) + EntriesOfRows(b)
  {
    var l, r := EntriesOfRows(a + b), EntriesOfRows(a) + EntriesOfRows(b);
    forall k | 0 <= k < |l|
      ensures l[k] == r[k]
    {
      if k < |a| {
        assert (a + b)[k] == a[k];
      } else {
        assert (a + b)[k] == b[k - |a|];
      }
    }
  }

  lemma {:induction false} EntriesRoundTrip(id: string, entries: seq<PortfolioEntry>)
    ensures EntriesOfRows(EntryRows(id, entries)) == ReloadedEntries(Seqs.Filter(entries, HasTrimmedTitle))
  {
    if entries != [] {
      EntriesRoundTrip(id, entries[1..]);
      var head := if HasTrimmedTitle(entries[0]) then [EntryRow(id, entries[0])] else [];
      assert EntryRows(id, entries) == head + EntryRows(id, entries[1..]);
      EntriesOfRowsAppend(head, EntryRows(id, entries[1..]));
      var kept := Seqs.Filter(entries, HasTrimmedTitle);
      if HasTrimmedTitle(entries[0]) {
        assert kept == [entries[0]] + Seqs.Filter(entries[1..], HasTrimmedTitle);
        assert ReloadedEntries(kept)[1..] == ReloadedEntries(kept[1..]);
      }
    }
  }

  /** Loading a card right after a completed save shows what was saved, except that blank
      social links and untitled portfolio entries are gone and empty optional texts of the
      entries come back as null. */
  lemma SaveThenLoad(db: Db, id: string, st: EditorState, now: string, suffix: string, faults: set<Step>)
    requires id in db.cards
    requires SaveRun(db, id, st, now, suffix, faults).outcome == Done
    ensures var db' := SaveRun(db, id, st, now, suffix, faults).db;
      && id in db'.cards
      && LoadedState(db'.cards[id], RowsOf(db'.socialLinks, id), RowsOf(db'.portfolioItems, id))
         == st.(socials := Seqs.Filter(st.socials, HasUrl),
                portfolio := ReloadedEntries(Seqs.Filter(st.portfolio, HasTrimmedTitle)))
  {
    SaveReplacesChildren(db, id, st, now, suffix, faults);
    SocialsRoundTrip(id, st.socials);
    EntriesRoundTrip(id, st.portfolio);
  }

  /** The page's own contact file agrees with the shared exporter exactly when the name is
      filled; with an empty name the page still offers `.vcf` where the exporter refuses. */
  lemma AddToContactsVsExporter(st: EditorState)
    ensures VCard.CreateAndDownloadVCard(ContactOf(st)) == VCard.Downloaded(AddToContacts(st)) <==> st.name != ""
    ensures st.name == "" ==> AddToContacts(st).fileName == ".vcf"
  {
  }
}
