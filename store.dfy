/** The three tables the pages write, held in memory. Every call to the hosted database
    becomes a step that either succeeds and changes the tables as the call would, or fails
    and changes nothing; which steps fail is an input (`faults`). */
module Store {
  import opened Wrappers

  /** A row of `business_cards`. Columns the database lets be null are Options. */
  datatype CardRow = CardRow(
    id: string,
    userId: string,
    name: string,
    title: Option<string>,
    bio: Option<string>,
    email: Option<string>,
    phone: Option<string>,
    location: Option<string>,
    website: Option<string>,
    photoUrl: Option<string>,
    logoUrl: Option<string>,
    template: string,
    published: Option<bool>,
    slug: Option<string>,
    updatedAt: Option<string>)

  datatype SocialFields = SocialFields(network: string, url: string)

  datatype PortfolioFields = PortfolioFields(
    title: string,
    description: Option<string>,
    imageUrl: Option<string>,
    link: Option<string>)

  /** A row of `social_links` or `portfolio_items`: it belongs to the card `cardId`. */
  datatype Row<T> = Row(cardId: string, fields: T)

  datatype Db = Db(
    cards: map<string, CardRow>,
    socialLinks: seq<Row<SocialFields>>,
    portfolioItems: seq<Row<PortfolioFields>>)

  /** The remote calls the handlers make, each of which may fail. */
  datatype Step =
    | SelectCard | SelectSocials | SelectPortfolio
    | InsertCard | UpdateCard | DeleteCard
    | DeleteSocials | InsertSocials
    | DeletePortfolio | InsertPortfolio | InsertPortfolioItem(index: nat)

  /** `select().eq('card_id', id)`: the rows of card `id`, in table order. */
  function RowsOf<T>(rows: seq<Row<T>>, id: string): (r: seq<Row<T>>)
    ensures |r| <= |rows|
    ensures forall k :: 0 <= k < |r| ==> r[k].cardId == id
  {
    if rows == [] then []
    else (if rows[0].cardId == id then [rows[0]] else []) + RowsOf(rows[1..], id)
  }

  /** What `delete().eq('card_id', id)` leaves in a child table. */
  function RowsNotOf<T>(rows: seq<Row<T>>, id: string): (r: seq<Row<T>>)
    ensures |r| <= |rows|
    ensures forall k :: 0 <= k < |r| ==> r[k].cardId != id
  {
    if rows == [] then []
    else (if rows[0].cardId != id then [rows[0]] else []) + RowsNotOf(rows[1..], id)
  }

  predicate AllOwnedBy<T>(rows: seq<Row<T>>, id: string) {
    forall k :: 0 <= k < |rows| ==> rows[k].cardId == id
  }

  lemma {:induction false} RowsOfAppend<T>(a: seq<Row<T>>, b: seq<Row<T>>, id: string)
    ensures RowsOf(a + b, id) == RowsOf(a, id) + RowsOf(b, id)
  {
    if a == [] {
      assert a + b == b;
    } else {
      var ab := a + b;
      assert ab[0] == a[0];
      assert ab[1..] == a[1..] + b;
      RowsOfAppend(a[1..], b, id);
      var head := if a[0].cardId == id then [a[0]] else [];
      assert RowsOf(ab, id) == head + RowsOf(a[1..] + b, id);
      assert RowsOf(a, id) == head + RowsOf(a[1..], id);
    }
  }

  lemma {:induction false} RowsOfOwned<T>(rows: seq<Row<T>>, id: string, other: string)
    requires AllOwnedBy(rows, id) && other != id
    ensures RowsOf(rows, id) == rows
    ensures RowsOf(rows, other) == []
  {
    if rows != [] {
      RowsOfOwned(rows[1..], id, other);
    }
  }

  lemma {:induction false} RowsOfRowsNotOf<T>(rows: seq<Row<T>>, id: string, other: string)
    requires other != id
    ensures RowsOf(RowsNotOf(rows, id), id) == []
    ensures RowsOf(RowsNotOf(rows, id), other) == RowsOf(rows, other)
  {
    if rows != [] {
      RowsOfRowsNotOf(rows[1..], id, other);
      var head := if rows[0].cardId != id then [rows[0]] else [];
      RowsOfAppend(head, RowsNotOf(rows[1..], id), id);
      RowsOfAppend(head, RowsNotOf(rows[1..], id), other);
    }
  }

  /** Deleting a card's rows when it has none leaves the table as it was. */
  lemma {:induction false} RowsNotOfNone<T>(rows: seq<Row<T>>, id: string)
    requires RowsOf(rows, id) == []
    ensures RowsNotOf(rows, id) == rows
  {
    if rows != [] {
      RowsNotOfNone(rows[1..], id);
    }
  }

  /** Delete-then-insert on a child table: afterwards card `id` owns exactly the inserted
      rows, and every other card owns what it owned before. */
  lemma ReplaceRows<T>(rows: seq<Row<T>>, id: string, inserted: seq<Row<T>>)
    requires AllOwnedBy(inserted, id)
    ensures RowsOf(RowsNotOf(rows, id) + inserted, id) == inserted
    ensures forall c :: c != id ==> RowsOf(RowsNotOf(rows, id) + inserted, c) == RowsOf(rows, c)
  {
    RowsOfAppend(RowsNotOf(rows, id), inserted, id);
    RowsOfRowsNotOf(rows, id, id + "'");
    RowsOfOwned(inserted, id, id + "'");
    forall c | c != id
      ensures RowsOf(RowsNotOf(rows, id) + inserted, c) == RowsOf(rows, c)
    {
      RowsOfAppend(RowsNotOf(rows, id), inserted, c);
      RowsOfRowsNotOf(rows, id, c);
      RowsOfOwned(inserted, id, c);
    }
  }

  /** Inserting rows of card `id` into a table holding none of its rows: afterwards the card
      owns exactly the inserted rows, and every other card owns what it owned before. */
  lemma AppendOwnRows<T>(rows: seq<Row<T>>, id: string, inserted: seq<Row<T>>)
    requires RowsOf(rows, id) == [] && AllOwnedBy(inserted, id)
    ensures RowsOf(rows + inserted, id) == inserted
    ensures forall c :: c != id ==> RowsOf(rows + inserted, c) == RowsOf(rows, c)
  {
    RowsOfAppend(rows, inserted, id);
    RowsOfOwned(inserted, id, id + "'");
    forall c | c != id
      ensures RowsOf(rows + inserted, c) == RowsOf(rows, c)
    {
      RowsOfAppend(rows, inserted, c);
      RowsOfOwned(inserted, id, c);
    }
  }

  /** The outcome of a handler's sequence of calls: all done, stopped at the step that
      failed, or skipped by a guard before any call. */
  datatype Outcome = Done | Failed(step: Step) | Skipped

  /** The tables after a completed delete. */
  function Deleted(db: Db, id: string): Db {
    Db(db.cards - {id}, RowsNotOf(db.socialLinks, id), RowsNotOf(db.portfolioItems, id))
  }

  /** The delete sequence shared by the edit page and the admin dashboard: social links,
      then portfolio items, then the card row, stopping at the first call that fails. */
  method DeleteCardCascade(db: Db, id: string, faults: set<Step>) returns (db': Db, outcome: Outcome)
    ensures DeleteSocials in faults ==> db' == db && outcome == Failed(DeleteSocials)
    ensures DeleteSocials !in faults && DeletePortfolio in faults ==>
      db' == db.(socialLinks := RowsNotOf(db.socialLinks, id)) && outcome == Failed(DeletePortfolio)
    ensures DeleteSocials !in faults && DeletePortfolio !in faults && DeleteCard in faults ==>
      && db' == db.(socialLinks := RowsNotOf(db.socialLinks, id), portfolioItems := RowsNotOf(db.portfolioItems, id))
      && outcome == Failed(DeleteCard)
    ensures outcome == Done <==> DeleteSocials !in faults && DeletePortfolio !in faults && DeleteCard !in faults
    ensures outcome == Done ==> db' == Deleted(db, id)
  {
    db' := db;
    if DeleteSocials in faults {
      return db', Failed(DeleteSocials);
    }
    db' := db'.(socialLinks := RowsNotOf(db'.socialLinks, id));
    if DeletePortfolio in faults {
      return db', Failed(DeletePortfolio);
    }
    db' := db'.(portfolioItems := RowsNotOf(db'.portfolioItems, id));
    if DeleteCard in faults {
      return db', Failed(DeleteCard);
    }
    db' := db'.(cards := db'.cards - {id});
    outcome := Done;
  }

  /** A completed delete leaves no card row with that id and no child row with that
      card id, and leaves every other card and its rows as they were. */
  lemma DeletedLeavesNothing(db: Db, id: string)
    ensures var db' := Deleted(db, id);
      && id !in db'.cards
      && RowsOf(db'.socialLinks, id) == [] && RowsOf(db'.portfolioItems, id) == []
      && (forall c :: c != id && c in db.cards ==> c in db'.cards && db'.cards[c] == db.cards[c])
      && (forall c :: c != id ==> RowsOf(db'.socialLinks, c) == RowsOf(db.socialLinks, c))
      && (forall c :: c != id ==> RowsOf(db'.portfolioItems, c) == RowsOf(db.portfolioItems, c))
  {
    ReplaceRows(db.socialLinks, id, []);
    ReplaceRows(db.portfolioItems, id, []);
    assert RowsNotOf(db.socialLinks, id) + [] == RowsNotOf(db.socialLinks, id);
    assert RowsNotOf(db.portfolioItems, id) + [] == RowsNotOf(db.portfolioItems, id);
  }

  /** Deleting a card that does not exist and owns no rows changes nothing. */
  lemma DeletedMissingIsNoop(db: Db, id: string)
    requires id !in db.cards && RowsOf(db.socialLinks, id) == [] && RowsOf(db.portfolioItems, id) == []
    ensures Deleted(db, id) == db
  {
    RowsNotOfNone(db.socialLinks, id);
    RowsNotOfNone(db.portfolioItems, id);
    assert db.cards - {id} == db.cards;
  }
}
