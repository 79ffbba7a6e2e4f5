/** `createAndDownloadVCard` of src/utils/vCardGenerator.ts: the contact file offered on a card's page. */
module VCard {
  import opened Text

  /** The exporter's input. An optional field that is absent is the empty string here:
      the code only tests each field for truthiness, and both are falsy. */
  datatype VCardData = VCardData(
    name: string,
    title: string,
    email: string,
    phone: string,
    website: string,
    location: string)

  /** `value ? prefix + value : ''`. */
  function Slot(prefix: string, value: string): string {
    if value != "" then prefix + value else ""
  }

  /** The nine-element line array, before it is joined. */
  function Lines(d: VCardData): (lines: seq<string>)
    ensures |lines| == 9
  {
    [ "BEGIN:VCARD",
      "VERSION:3.0",
      "FN:" + d.name,
      Slot("TITLE:", d.title),
      Slot("EMAIL:", d.email),
      Slot("TEL:", d.phone),
      Slot("URL:https://", d.website),
      Slot("ADR:;;", d.location),
      "END:VCARD" ]
  }

  /** The file's text: the lines joined with a bare line feed. */
  function Payload(d: VCardData): string {
    Join(Lines(d), '\n')
  }

  datatype Download = Download(fileName: string, mimeType: string, content: string)

  /** Either the file handed to the browser, or the "incomplete card data" error. */
  datatype Export = Downloaded(file: Download) | IncompleteData

  function CreateAndDownloadVCard(d: VCardData): (r: Export)
    ensures r.IncompleteData? <==> d.name == ""
    ensures r.Downloaded? ==> r.file.fileName == d.name + ".vcf" && r.file.mimeType == "text/vcard"
    ensures r.Downloaded? ==> r.file.content == Payload(d)
  {
    if d.name == "" then IncompleteData
    else Downloaded(Download(d.name + ".vcf", "text/vcard", Payload(d)))
  }

  predicate NoNewlines(d: VCardData) {
    '\n' !in d.name && '\n' !in d.title && '\n' !in d.email && '\n' !in d.phone
    && '\n' !in d.website && '\n' !in d.location
  }

  /** When no field holds a line feed the payload has exactly nine line-feed separated
      segments: the fixed first three and last one, and slots 3 to 7 for TITLE, EMAIL, TEL,
      URL and ADR, each empty exactly when its field is empty. */
  lemma PayloadSegments(d: VCardData)
    requires NoNewlines(d)
    ensures var seg := Split(Payload(d), '\n');
      && |seg| == 9
      && seg[0] == "BEGIN:VCARD" && seg[1] == "VERSION:3.0" && seg[2] == "FN:" + d.name
      && seg[8] == "END:VCARD"
      && (seg[3] == "" <==> d.title == "") && (d.title != "" ==> seg[3] == "TITLE:" + d.title)
      && (seg[4] == "" <==> d.email == "") && (d.email != "" ==> seg[4] == "EMAIL:" + d.email)
      && (seg[5] == "" <==> d.phone == "") && (d.phone != "" ==> seg[5] == "TEL:" + d.phone)
      && (seg[6] == "" <==> d.website == "") && (d.website != "" ==> seg[6] == "URL:https://" + d.website)
      && (seg[7] == "" <==> d.location == "") && (d.location != "" ==> seg[7] == "ADR:;;" + d.location)
  {
    var lines := Lines(d);
    forall k | 0 <= k < 9
      ensures '\n' !in lines[k]
    {
    }
    SplitJoin(lines, '\n');
  }

  /** Whatever the fields hold, the text begins with the version header and the formatted
      name and ends with the closing line. */
  lemma PayloadFrame(d: VCardData)
    ensures StartsWith(Payload(d), "BEGIN:VCARD\nVERSION:3.0\nFN:" + d.name + "\n")
    ensures EndsWith(Payload(d), "\nEND:VCARD")
  {
    var lines := Lines(d);
    var rest := Join(lines[3..], '\n');
    assert lines[1..][1..][1..] == lines[3..];
    assert Join(lines[1..][1..], '\n') == lines[2] + "\n" + rest;
    assert Join(lines[1..], '\n') == lines[1] + "\n" + (lines[2] + "\n" + rest);
    var head := "BEGIN:VCARD\nVERSION:3.0\nFN:" + d.name + "\n";
    assert Payload(d) == head + rest;
    assert Payload(d)[..|head|] == head;
    JoinSuffix(lines, '\n');
  }

  /** A card with email and phone only: the title, website and location slots stay as
      blank segments rather than being left out. */
  lemma JeanDupontExample()
    ensures var d := VCardData("Jean Dupont", "", "jean@x.com", "+33600000000", "", "");
      Split(Payload(d), '\n')
        == ["BEGIN:VCARD", "VERSION:3.0", "FN:Jean Dupont", "", "EMAIL:jean@x.com",
            "TEL:+33600000000", "", "", "END:VCARD"]
  {
    var d := VCardData("Jean Dupont", "", "jean@x.com", "+33600000000", "", "");
    var lines := ["BEGIN:VCARD", "VERSION:3.0", "FN:Jean Dupont", "", "EMAIL:jean@x.com",
                  "TEL:+33600000000", "", "", "END:VCARD"];
    assert "FN:" + d.name == lines[2];
    assert Slot("EMAIL:", d.email) == lines[4];
    assert Slot("TEL:", d.phone) == lines[5];
    assert Lines(d) == lines;
    SplitJoin(lines, '\n');
  }
}
