# A verified model of the card logic of a digital business-card web application

The application lets a signed-in user create a digital business card (name, title,
contact details, photo and logo, social links, portfolio items, a visual template),
edit or delete it later, share it by a public page, export it as a vCard, and lets one
administrator list and search every card. Its logic lives in React pages that talk to a
hosted database with three tables: `business_cards`, `social_links` and
`portfolio_items`, the two child tables keyed by `card_id`.

This project models, in Dafny:

- **Slug derivation** (`Slug`): lower-casing, collapsing each run of characters outside
  `[a-z0-9]` into one `-`, stripping one leading and one trailing `-`, and appending
  `-` and a suffix.
- **Contact-field validators** (`Validation`): the email, phone and website patterns of
  the create form, as explicit character-class predicates.
- **The vCard text builder** (`VCard`), and the copy of it in the edit page.
- **Form state and its handlers** (`Forms`, `CreateCard.CardForm`,
  `EditCard.CardEditor`): setting one field, the social and portfolio lists (append,
  remove at an index, set a field at an index), the 2 MiB image guard, and the filtering
  of blank entries before they are stored.
- **An in-memory store** (`Store`): the three tables. Each remote call is a step that
  succeeds and changes the tables as the call would, or fails and changes nothing. Which
  steps fail is an input, `faults`. On top of it sit the create-page save, the edit-page
  save (update the card, then delete and re-insert the children) and the delete cascade
  shared by the edit page and the admin dashboard.
- **The admin dashboard** (`Admin`): the access check, the grouping of cards into
  distinct users in first-seen order, the case-insensitive search, and the local list
  update after a delete.
- **The card component and the public contact block** (`BusinessCard`,
  `ContactInformation`): card style, avatar and logo badge, contact rows (order,
  presence, captions, links), social tiles and the QR block.

Shared pieces:

- `Wrappers` holds `Option`.
- `Text` holds the JavaScript string operations the code uses: `trim`, `toLowerCase`,
  `includes`, `startsWith`, `join`, `split`.
- `Seqs` holds `filter` and its properties.

Inputs the model takes from outside:

- The random slug suffix (`Math.random().toString(36)…`) is the parameter `suffix`.
- The save time (`new Date().toISOString()`) is the parameter `now`.
- The answer of the browser's confirmation dialog is the parameter `confirmed`.
- The signed-in session is an `Option`.
- The result of each portfolio image upload is a function from the item's index to an
  optional url.
- The id the database gives a new card is the parameter `newId`.

Component state that the code updates in place is held in classes, whose methods state
the whole new state. The create form is `CreateCard.CardForm`, the edit page is
`EditCard.CardEditor` and the dashboard is `Admin.AdminDashboard`. Handlers that call the
database take the tables and return the new tables.

Points where the code behaves in a way that is easy to misread:

- **vCard lines.** The vCard keeps all nine slots; the slot of an empty field is an
  empty line, not a missing one.
- **Validation and save.** `saveCard` never calls `validateForm`, so validation is not a
  save gate.
- **Blank social links.** A social link is dropped when its url is empty after trimming.
- **Card resolution.** The public page looks a card up by id only
  (src/hooks/useCardData.ts, `/card/:id` in src/App.tsx); there is no slug or name
  lookup chain to model.

## Model

| member | source | states |
|---|---|---|
| Text.TrimEmptyIffBlank | src/pages/CreateCard.tsx:338 | a trimmed string is empty exactly when every character of it is JavaScript white space |
| Text.ContainsIffOccurs | src/pages/AdminDashboard.tsx:174-176 | `includes` holds exactly when the needle occurs at some index of the text |
| Text.SplitJoin | src/utils/vCardGenerator.ts:37 | splitting a `\n`-joined list whose elements hold no `\n` gives the list back |
| Seqs.FilterMembers | src/pages/CreateCard.tsx:337-338 | an element is kept by `filter` exactly when it is in the input and satisfies the predicate |
| Seqs.FilterSubsequence | src/pages/AdminDashboard.tsx:173 | `filter` returns a subsequence of its input, so the order is kept |
| Slug.UniqueSlug | src/pages/CreateCard.tsx:308 | the slug is the base slug, then one `-`, then the suffix unchanged; the base part is clean |
| Slug.BaseSlugClean | src/pages/CreateCard.tsx:304-307 | a base slug has only `[a-z0-9-]`, no `--`, and no `-` at either end |
| Slug.BaseSlugContent | src/pages/CreateCard.tsx:304-307 | the letters and digits of the base slug are exactly those of the lower-cased name, in order |
| Slug.AllSymbolName | src/pages/CreateCard.tsx:304-308 | a name without letters or digits gives an empty base slug and the slug `-` + suffix |
| Slug.BaseSlugOfClean | src/pages/EditCard.tsx:224-227 | a slug that is already clean is its own base slug |
| Slug.BaseSlugIdempotent | src/pages/EditCard.tsx:224-227 | deriving a base slug twice gives the same result as once |
| Validation.EmailShape | src/pages/CreateCard.tsx:79 | the email pattern holds iff there is no white space, exactly one `@`, not first, and a `.` after the character that follows it and before the end |
| Validation.EmailExamples | src/pages/CreateCard.tsx:79 | `jean@x.com` and `a@.b.c` pass the email pattern and `not-an-email` fails it |
| Validation.PhoneShape | src/pages/CreateCard.tsx:83 | a phone with a letter in it is refused, eight or more digits are accepted, and two accepted numbers joined by a space or `-` are accepted |
| Validation.PhoneExamples | src/pages/CreateCard.tsx:83 | phones need at least 8 characters, all digits, spaces, `+`, `(`, `)` or `-`; a 7-digit number and a number with words fail |
| Validation.WebsiteShape | src/pages/CreateCard.tsx:87 | an accepted website has exactly one dot, after a label of 3 to 63 characters |
| Validation.TwoDotsRejected | src/pages/CreateCard.tsx:87 | any website with two dots is rejected |
| Validation.WebsiteExamples | src/pages/CreateCard.tsx:87 | `www.monsite.com`, `https://monsite.com` and `ab.com` are rejected and `monsite.com` accepted |
| VCard.Lines | src/utils/vCardGenerator.ts:27-36 | the line array always has nine slots |
| VCard.CreateAndDownloadVCard | src/utils/vCardGenerator.ts:16-45 | an empty name gives the incomplete-data error and no file; otherwise a `text/vcard` file named name + `.vcf` holding the payload |
| VCard.PayloadSegments | src/utils/vCardGenerator.ts:27-37 | with no line feed in any field, the payload has nine segments: the fixed frame, and TITLE, EMAIL, TEL, URL (`https://` + website) and ADR (`;;` + location) in slots 3 to 7, each empty iff its field is |
| VCard.PayloadFrame | src/utils/vCardGenerator.ts:28-37 | the payload starts with `BEGIN:VCARD`, `VERSION:3.0`, `FN:` + name and ends with `END:VCARD` |
| VCard.JeanDupontExample | src/utils/vCardGenerator.ts:27-37 | a card without title, website or location yields blank lines in those slots |
| Store.RowsOf | src/pages/EditCard.tsx:126-129 | selecting by card id returns only rows of that card, never more rows than the table has |
| Store.RowsOfAppend | src/pages/EditCard.tsx:258-261 | selecting from a table with rows appended gives the old selection followed by the selection of the appended rows |
| Store.ReplaceRows | src/pages/EditCard.tsx:241-264 | after delete-by-card-id then insert, the card owns exactly the inserted rows and every other card owns what it owned |
| Store.AppendOwnRows | src/pages/CreateCard.tsx:345-348 | inserting a new card's rows into a table without any of its rows gives it exactly those rows and leaves other cards' rows unchanged |
| Store.DeleteCardCascade | src/pages/EditCard.tsx:459-481 | social links, then portfolio items, then the card row are deleted; a failing step stops the later ones and leaves their tables unchanged; success iff no step fails |
| Store.DeletedLeavesNothing | src/pages/EditCard.tsx:459-481 | after a full delete no card row with that id and no child row with that card id remain; other cards and their rows are unchanged |
| Store.DeletedMissingIsNoop | src/pages/AdminDashboard.tsx:91-123 | deleting a card that does not exist and owns no rows leaves the tables as they were |
| Forms.GuardedRead | src/pages/CreateCard.tsx:148-158 | a file over 2·1024·1024 bytes is rejected; one of at most 2097152 bytes is read; no file means nothing read |
| Forms.UnguardedRead | src/pages/EditCard.tsx:371-380 | the edit page reads any chosen file, whatever its size |
| Forms.OrNull | src/pages/EditCard.tsx:283-285 | `x \|\| null` is null exactly when x is absent or empty, else x |
| Forms.RemoveAt | src/pages/CreateCard.tsx:140-141 | removing index i keeps every other element in order; an index out of range removes nothing |
| Forms.SetSocialField | src/pages/CreateCard.tsx:112-125 | only the chosen field of the link takes the value; the other field is kept |
| Forms.SocialRows | src/pages/CreateCard.tsx:337-343 | one row per link with a non-blank trimmed url, all for the given card |
| Forms.SocialRowsAreKept | src/pages/CreateCard.tsx:337-343 | the rows are the kept links in order, each with network and url unchanged |
| Forms.SocialKeptIffNotBlank | src/pages/CreateCard.tsx:338 | a link is kept exactly when its url is not all white space |
| CreateCard.InitialForm | src/pages/CreateCard.tsx:48-66 | the new form has every text field empty, four social entries, no portfolio item and the default template |
| CreateCard.SetField | src/pages/CreateCard.tsx:95-101 | the named field takes the value and every other field is unchanged |
| CreateCard.ErrorMessage | src/pages/CreateCard.tsx:79-88 | every error has a non-empty message |
| CreateCard.CollectErrors | src/pages/CreateCard.tsx:75-93 | a field has an error exactly when it is a non-empty email, phone or website failing its pattern; an empty field never has one |
| CreateCard.StoredImageUrl | src/pages/CreateCard.tsx:362-367 | a chosen file stores what the upload returned, an empty or failed upload storing none; otherwise the item's own url is stored |
| CreateCard.DraftRow | src/pages/CreateCard.tsx:370-378 | the row copies the title; an empty description or link is stored as null |
| CreateCard.PortfolioInserts | src/pages/CreateCard.tsx:360-384 | every inserted row belongs to the new card and has a non-empty title, and there are at most as many rows as items |
| CreateCard.InsertPortfolioDrafts | src/pages/CreateCard.tsx:357-387 | the loop appends exactly the rows of the items with a title whose insert succeeds, in order, and changes nothing else |
| CreateCard.PortfolioInsertsAll | src/pages/CreateCard.tsx:360-384 | when no item insert fails, the stored titles are the non-empty titles of the items, in order |
| CreateCard.CardForm.constructor | src/pages/CreateCard.tsx:48-72 | the page starts with the initial form and no errors |
| CreateCard.CardForm.ValidateForm | src/pages/CreateCard.tsx:75-93 | the error map holds exactly the flagged fields with their messages; the result is true iff the map is empty iff no field is flagged |
| CreateCard.CardForm.HandleInputChange | src/pages/CreateCard.tsx:95-110 | only the named field changes, and only that field's error is removed |
| CreateCard.CardForm.HandleSocialChange | src/pages/CreateCard.tsx:112-131 | only the chosen field of entry i changes |
| CreateCard.CardForm.AddSocialLink | src/pages/CreateCard.tsx:133-138 | a `github` entry with an empty url is appended |
| CreateCard.CardForm.RemoveSocialLink | src/pages/CreateCard.tsx:140-146 | exactly entry i is removed, the rest keep their order |
| CreateCard.CardForm.HandlePhotoUpload | src/pages/CreateCard.tsx:148-181 | a file over 2 MiB leaves the form unchanged; a smaller one sets the photo to its data url |
| CreateCard.CardForm.HandleLogoUpload | src/pages/CreateCard.tsx:183-216 | a file over 2 MiB leaves the form unchanged; a smaller one sets the logo to its data url |
| CreateCard.CardForm.HandleTemplateChange | src/pages/CreateCard.tsx:218-224 | only the template changes |
| CreateCard.CardForm.HandleAddPortfolioItem | src/pages/CreateCard.tsx:226-231 | an item with empty title, description and link is appended |
| CreateCard.CardForm.HandleRemovePortfolioItem | src/pages/CreateCard.tsx:233-239 | exactly item i is removed, the rest keep their order |
| CreateCard.CardForm.HandlePortfolioItemChange | src/pages/CreateCard.tsx:241-260 | only the chosen field of item i changes; the other items are unchanged |
| CreateCard.CardForm.HandlePortfolioImageUpload | src/pages/CreateCard.tsx:262-282 | any chosen file sets item i's preview url and file, with no size check |
| CreateCard.CardForm.SaveCard | src/pages/CreateCard.tsx:284-406 | no session: nothing stored; a failed card insert: nothing stored; otherwise the card row, its social rows and its portfolio rows are stored and the result is the new slug |
| CreateCard.NewCardRowShape | src/pages/CreateCard.tsx:311-329 | the new row is published, belongs to the user, copies the fields, uses the template and carries the slug base + `-` + suffix |
| CreateCard.SavedSocialLinks | src/pages/CreateCard.tsx:336-354 | after the save the new card's social rows are exactly the non-blank links, or none if that insert failed; other cards' rows are unchanged |
| CreateCard.SavedPortfolioTitles | src/pages/CreateCard.tsx:357-387 | with no failed item insert, the new card's portfolio titles are the non-empty titles of the form, in order; other cards' items are unchanged |
| CreateCard.BlankTitleIsSaved | src/pages/CreateCard.tsx:361 | an item whose title is a single space is stored, since the create page does not trim titles |
| EditCard.SocialsOfRows | src/pages/EditCard.tsx:155-161 | the loaded links are the rows' network and url, one per row, in order |
| EditCard.EntriesOfRows | src/pages/EditCard.tsx:164-172 | the loaded items are the rows' title, description, link and image url, one per row, in order |
| EditCard.LoadedState | src/pages/EditCard.tsx:141-172 | a card is shown as published unless it is stored as exactly false; a null field is shown as empty |
| EditCard.UpdateOf | src/pages/EditCard.tsx:207-230 | location is null iff empty; the slug is set iff the name is non-empty, to the derived slug; every other field is copied |
| EditCard.ApplyUpdate | src/pages/EditCard.tsx:232-235 | the update keeps id and owner, and keeps the stored slug unless the payload carries one |
| EditCard.UpdateCardRow | src/pages/EditCard.tsx:232-235 | only the row with that id changes; an unknown id changes nothing |
| EditCard.EntryRows | src/pages/EditCard.tsx:277-286 | one row per item with a non-blank trimmed title, all for the card |
| EditCard.EntryRowNulls | src/pages/EditCard.tsx:280-286 | empty description, image url and link are stored as null, the title as it is |
| EditCard.ChildrenRun | src/pages/EditCard.tsx:239-295 | each step runs only if the previous succeeded; on success both child tables hold the other cards' rows followed by the new rows |
| EditCard.SaveRun | src/pages/EditCard.tsx:186-295 | a failed card update leaves every table unchanged |
| EditCard.ReplaceChildren | src/pages/EditCard.tsx:239-295 | the sequence of deletes and inserts reaches the state and outcome `ChildrenRun` describes |
| EditCard.AddToContacts | src/pages/EditCard.tsx:315-342 | the file is name + `.vcf` of type `text/vcard` and holds the same payload as the vCard exporter |
| EditCard.AddToContactsVsExporter | src/pages/EditCard.tsx:315-342 | the page's copy agrees with the exporter exactly when the name is non-empty; with an empty name the page still produces `.vcf` |
| EditCard.CardEditor.constructor | src/pages/EditCard.tsx:58-80 | the editor starts with empty fields, no links or items, published and the default template |
| EditCard.CardEditor.FetchCardData | src/pages/EditCard.tsx:111-184 | the state is loaded iff the three selects succeed and the card exists; otherwise it is unchanged |
| EditCard.CardEditor.HandleSave | src/pages/EditCard.tsx:186-313 | with no card id nothing happens; otherwise the tables end as the save run describes |
| EditCard.CardEditor.HandleSocialChange | src/pages/EditCard.tsx:344-360 | only the chosen field of link i changes |
| EditCard.CardEditor.AddSocialLink | src/pages/EditCard.tsx:362-364 | a `github` link with an empty url is appended |
| EditCard.CardEditor.RemoveSocialLink | src/pages/EditCard.tsx:366-369 | exactly link i is removed |
| EditCard.CardEditor.HandlePhotoUpload | src/pages/EditCard.tsx:371-380 | any chosen file sets the photo, with no size check |
| EditCard.CardEditor.HandleLogoUpload | src/pages/EditCard.tsx:382-391 | any chosen file sets the logo, with no size check |
| EditCard.CardEditor.HandleTemplateChange | src/pages/EditCard.tsx:393-396 | only the template changes |
| EditCard.CardEditor.HandleAddPortfolioItem | src/pages/EditCard.tsx:398-400 | an item with empty title, description and link and no image is appended |
| EditCard.CardEditor.HandleRemovePortfolioItem | src/pages/EditCard.tsx:402-404 | exactly item i is removed |
| EditCard.CardEditor.HandlePortfolioItemChange | src/pages/EditCard.tsx:406-413 | only the chosen field of item i changes |
| EditCard.CardEditor.HandlePortfolioImageUpload | src/pages/EditCard.tsx:415-447 | a file over 2 MiB leaves the list unchanged; a smaller one sets item i's image url |
| EditCard.CardEditor.HandleDeleteCard | src/pages/EditCard.tsx:449-501 | without an id or confirmation nothing happens; otherwise the delete cascade runs: a failed social-link delete changes nothing, a failed portfolio delete leaves the social links already removed, a failed card delete leaves both child tables already emptied of the card, and a full success removes the card and its rows |
| EditCard.EntryRowsAreKept | src/pages/EditCard.tsx:277-286 | the rows are the kept items in order, each as its row |
| EditCard.SaveReplacesChildren | src/pages/EditCard.tsx:186-295 | after a successful save the card's links are exactly the non-blank links and its items exactly the titled items; other cards' rows are untouched |
| EditCard.SaveSlug | src/pages/EditCard.tsx:222-235 | after the update the stored slug is unchanged for an empty name, else the newly derived slug |
| EditCard.ReloadedEntries | src/pages/EditCard.tsx:164-172 | each entry as it loads back after being stored, empty texts having become null |
| EditCard.SocialsRoundTrip | src/pages/EditCard.tsx:155-161 | loading the stored links gives back exactly the non-blank links |
| EditCard.EntriesRoundTrip | src/pages/EditCard.tsx:164-172 | loading the stored items gives back the titled items, empty texts as null |
| EditCard.SaveThenLoad | src/pages/EditCard.tsx:111-295 | after a successful save, loading the card again gives the state that was saved, minus blank links and untitled items |
| Admin.AccessRule | src/pages/AdminDashboard.tsx:41-54 | access is denied iff there is no user or the email is not exactly the admin address |
| Admin.FirstSeen | src/pages/AdminDashboard.tsx:159-170 | there are never more users than cards |
| Admin.FirstSeenStep | src/pages/AdminDashboard.tsx:160-163 | one more card adds its owner at the end of the users, unless the owner is already listed |
| Admin.FirstSeenMembers | src/pages/AdminDashboard.tsx:159-170 | a user is listed exactly when some card belongs to it |
| Admin.FirstSeenDistinct | src/pages/AdminDashboard.tsx:159-170 | no user is listed twice |
| Admin.CardsOf | src/pages/AdminDashboard.tsx:165 | a user's cards all belong to that user |
| Admin.DeriveUsers | src/pages/AdminDashboard.tsx:159-170 | one entry per distinct user in first-seen order, with the email of its first card and all its cards in order |
| Admin.EmailOfExtend | src/pages/AdminDashboard.tsx:161-166 | a card of an already listed user does not change that user's email; a new user takes the email of the card that brings it in |
| Admin.UsersPartition | src/pages/AdminDashboard.tsx:159-170 | the users' card lists together hold as many cards as the dashboard |
| Admin.FilteredCardsSpec | src/pages/AdminDashboard.tsx:173-177 | the search keeps, in order, exactly the cards whose lower-cased name, email or title contains the lower-cased term |
| Admin.EmptySearchKeepsAll | src/pages/AdminDashboard.tsx:173-177 | an empty term keeps every card |
| Admin.SearchIgnoresCase | src/pages/AdminDashboard.tsx:174 | `JE` and `ea` both find a card named `Jean` |
| Admin.AdminDashboard.constructor | src/pages/AdminDashboard.tsx:28-30 | the dashboard starts loading, with no cards and access not denied |
| Admin.AdminDashboard.CheckAdminAndFetch | src/pages/AdminDashboard.tsx:35-81 | access is denied iff not admin; the admin gets the fetched cards; loading ends either way |
| Admin.AdminDashboard.HandleDeleteCard | src/pages/AdminDashboard.tsx:83-139 | without confirmation nothing happens; a failure stops the cascade at that step with the earlier deletes already applied (nothing, then the social links, then both child tables); on full success the card and its rows are gone and the local list drops cards with that id; on failure the list is unchanged |
| Admin.LocalListAfterDelete | src/pages/AdminDashboard.tsx:126 | the local list after a delete keeps, in order, exactly the cards with another id |
| BusinessCard.GetCardStyle | src/components/ui/business-card.tsx:45-62 | the glass style is given exactly to the variants without their own style, which includes default and preview |
| BusinessCard.DefaultAndPreviewAreGlass | src/components/ui/business-card.tsx:38-62 | an absent, `default` or `preview` variant gets the glass style |
| BusinessCard.CharAt0 | src/components/ui/business-card.tsx:105 | the initial is the first character of the name, or empty for an empty name |
| BusinessCard.HeaderOf | src/components/ui/business-card.tsx:85-117 | the photo is shown iff present, else the initial; the logo badge is shown iff the logo is present |
| BusinessCard.LogoBadgeIgnoresPhoto | src/components/ui/business-card.tsx:85-117 | the logo badge is the same with or without a photo |
| BusinessCard.WebsiteHref | src/components/ui/business-card.tsx:280 | a website starting with `http` is linked as it is, any other gets `https://` in front|
| BusinessCard.WebsiteHrefShape | src/components/ui/business-card.tsx:280 | every website link starts with `http` and ends with the value, and applying the rule to its own link changes nothing |
| BusinessCard.ContactInfo | src/components/ui/business-card.tsx:256-290 | email links to `mailto:`, phone to `tel:`, location to a map search, website to its href; each row has its French caption |
| BusinessCard.ContactRowAt | src/components/ui/business-card.tsx:146-151 | the row at each index is of the kind whose slot that index falls in, and shows that prop's value |
| BusinessCard.ContactRowsSpec | src/components/ui/business-card.tsx:146-151 | the rows follow the order email, location, phone, website; a row appears iff its value is non-empty, and shows that value |
| BusinessCard.SocialTiles | src/components/ui/business-card.tsx:154-189 | the section is hidden iff there are no links; otherwise one tile per link, in order, labelled with its network |
| BusinessCard.ShowQrDefaults | src/components/ui/business-card.tsx:192 | with the default flag the QR block shows iff a non-empty url is given; it never shows without a url or with the flag off |
| ContactInformation.InfoHref | src/components/view-card/ContactInformation.tsx:33-86 | the website link is always `https://` + value; the others are the card component's links |
| ContactInformation.InfoRowsVsCardRows | src/components/view-card/ContactInformation.tsx:25-95 | the public block shows the card component's rows in the same order with the same values and captions; only the website link differs, exactly when the value starts with `http` |
| ContactInformation.Profiles | src/components/view-card/ContactInformation.tsx:99-108 | the social block is hidden iff there are no links; the profiles have the same length and order, each the row's network and url |

## Left out

- Remote calls: authentication, the table calls and storage uploads are network I/O. Each becomes a step of the in-memory store that succeeds or fails as `faults` says. Asynchronous ordering, retries and the `saving`/`uploading`/`loading` flags are not modelled.
- Browser side effects: the downloads (Blob, object urls, link click), `FileReader`, toasts, navigation, `confirm` and the clipboard. Only the data they receive is kept, and a `confirm` answer is a parameter.
- Randomness and time: the slug suffix and the save timestamp are parameters. The suffix is not claimed to have six characters.
- Upload progress: the percentage at src/pages/CreateCard.tsx:165 is floating point.
- `encodeURIComponent`: the location link is kept as the unencoded search text. The QR url builders (src/utils/qrCodeGenerator.ts, `generateQRCode` in the edit page) rest on it and are not part of this model.
- The create page's `uploadPortfolioImage` is a storage call. Its result, per item, is an input.
- `toLowerCase` is modelled on ASCII letters only. White space for `trim` and `\s` is the full JavaScript set.
- JavaScript strings are UTF-16 and Dafny strings are sequences of characters. `charAt(0)` of a name whose first character lies outside the basic plane differs accordingly.
- The edit page's inline text setters (`setName`, `setTitle` and the like) and the `published` toggle in its markup are not modelled. They only assign one state variable.
- The create page's `imageFile` branch of `handlePortfolioItemChange` is not modelled. The markup calls the handler only with title, description or link.
- `handleShareCard` in the dashboard and the `card_visits` table are not modelled: they are clipboard I/O and a table no core handler writes.
- CreateCard.CardForm.HandleSocialChange, CreateCard.CardForm.HandlePortfolioItemChange, CreateCard.CardForm.HandlePortfolioImageUpload, EditCard.CardEditor.HandleSocialChange, EditCard.CardEditor.HandlePortfolioItemChange, EditCard.CardEditor.HandlePortfolioImageUpload: these require an index inside the list. JavaScript would write past the end of the array, but the markup only passes indexes of listed entries.
- Admin.FilteredCardsSpec: a card whose name or email is null would make the source throw. The model types both as strings, as the dashboard's own card type does.
- Store.RowsOf: the selects of social links and portfolio items by card id (src/pages/EditCard.tsx:126-129 and 134-137) have no `.order()`, and the database does not promise any row order for them. The model returns a card's rows in insertion order. EditCard.CardEditor.FetchCardData, EditCard.SocialsRoundTrip, EditCard.EntriesRoundTrip and EditCard.SaveThenLoad give back the entries in the order they were saved only under that assumption; without it they hold up to reordering of the rows.
- EditCard.SaveThenLoad: its in-order round trip rests on the insertion-order reading of Store.RowsOf described in the line above.
- Admin.AdminDashboard.CheckAdminAndFetch: the fetched list is an input, already in the query's `created_at` descending order.
- BusinessCard.ContactInfo: the fallback caption `Contact` with link `#` is not modelled. The row kind is one of the four listed in the component's type, so that case cannot arise.
- The card component's `target="_blank"` on the website row, its size classes and the markup of the other view components are presentation only.
