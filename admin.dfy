/** The admin dashboard (src/pages/AdminDashboard.tsx): the access check, the list of all
    cards, the users derived from it, the search and the delete. */
module Admin {
  import opened Wrappers
  import opened Text
  import Seqs
  import opened Store

  const ADMIN_EMAIL := "sobmombeyvan@gmail.com"

  /** The signed-in user; the auth service may give no email. */
  datatype User = User(id: string, email: Option<string>)

  /** The columns of a card the dashboard works with; `title` may be null. */
  datatype AdminCard = AdminCard(id: string, userId: string, name: string, title: Option<string>, email: string)

  /** One entry of `users`. */
  datatype UserEntry = UserEntry(id: string, email: string, cards: seq<AdminCard>)

  /** `checkAdminAndFetch`'s test: a user, whose email is exactly the admin address. */
  predicate IsAdmin(user: Option<User>) {
    user.Some? && user.value.email == Some(ADMIN_EMAIL)
  }

  /** Access is refused to anyone without a session and to every other address, however
      close it is to the admin's: the comparison is exact. */
  lemma AccessRule(user: Option<User>)
    ensures !IsAdmin(user) <==> user.None? || user.value.email != Some(ADMIN_EMAIL)
    ensures IsAdmin(Some(User("x", Some(ADMIN_EMAIL))))
    ensures !IsAdmin(Some(User("x", Some("Sobmombeyvan@gmail.com"))))
  {
  }

  // ---- users ----

  /** The distinct owners of `cards`, in the order their first card appears. */
  function FirstSeen(cards: seq<AdminCard>): (ids: seq<string>)
    ensures |ids| <= |cards|
    decreases |cards|
  {
    if cards == [] then []
    else
      var ids := FirstSeen(cards[..|cards| - 1]);
      var u := cards[|cards| - 1].userId;
      if u in ids then ids else ids + [u]
  }

  predicate OwnsSome(cards: seq<AdminCard>, u: string) {
    exists k :: 0 <= k < |cards| && cards[k].userId == u
  }

  /** `cards.filter(c => c.user_id === u)`. */
  function CardsOf(cards: seq<AdminCard>, u: string): (r: seq<AdminCard>)
    ensures |r| <= |cards|
    ensures forall k :: 0 <= k < |r| ==> r[k].userId == u
  {
    if cards == [] then []
    else (if cards[0].userId == u then [cards[0]] else []) + CardsOf(cards[1..], u)
  }

  /** The email of `u`'s first card, or the empty string when `u` owns none. */
  function EmailOf(cards: seq<AdminCard>, u: string): string {
    if cards == [] then ""
    else if cards[0].userId == u then cards[0].email
    else EmailOf(cards[1..], u)
  }

  /** The `reduce` over a `Map`: a user is added, with the email of the card that brings it
      in and all of its cards, only the first time one of its cards is met; the entries come
      out in insertion order. */
  method DeriveUsers(cards: seq<AdminCard>) returns (users: seq<UserEntry>)
    ensures |users| == |FirstSeen(cards)|
    ensures forall k :: 0 <= k < |users| ==>
      var u := FirstSeen(cards)[k];
      users[k] == UserEntry(u, EmailOf(cards, u), CardsOf(cards, u))
  {
    var keys: seq<string> := [];
    var m: map<string, UserEntry> := map[];
    var i := 0;
    while i < |cards|
      invariant 0 <= i <= |cards|
      invariant keys == FirstSeen(cards[..i])
      invariant forall u :: u in m <==> u in keys
      invariant forall u :: u in m ==> m[u] == UserEntry(u, EmailOf(cards[..i], u), CardsOf(cards, u))
    {
      var card := cards[i];
      ghost var prefix := cards[..i];
      assert cards[..i + 1] == prefix + [card];
      FirstSeenStep(prefix, card);
      EmailOfExtend(prefix, card);
      if card.userId !in m {
        m := m[card.userId := UserEntry(card.userId, card.email, CardsOf(cards, card.userId))];
        keys := keys + [card.userId];
      }
      i := i + 1;
    }
    assert cards[..i] == cards;
    users := seq(|keys|, k requires 0 <= k < |keys| => m[keys[k]]);
  }

  /** One more card adds its owner at the end, unless the owner is already listed. */
  lemma FirstSeenStep(prefix: seq<AdminCard>, card: AdminCard)
    ensures FirstSeen(prefix + [card]) ==
      if card.userId in FirstSeen(prefix) then FirstSeen(prefix) else FirstSeen(prefix) + [card.userId]
  {
    var next := prefix + [card];
    assert next[..|next| - 1] == prefix;
  }

  lemma {:induction false} EmailOfAppend(a: seq<AdminCard>, b: seq<AdminCard>, u: string)
    ensures EmailOf(a + b, u) == if OwnsSome(a, u) then EmailOf(a, u) else EmailOf(b, u)
  {
    if a == [] {
      assert a + b == b;
    } else {
      assert (a + b)[1..] == a[1..] + b;
      EmailOfAppend(a[1..], b, u);
      if a[0].userId != u {
        if OwnsSome(a, u) {
          var k :| 0 <= k < |a| && a[k].userId == u;
          assert a[1..][k - 1].userId == u;
        }
        if OwnsSome(a[1..], u) {
          var k :| 0 <= k < |a[1..]| && a[1..][k].userId == u;
          assert a[k + 1].userId == u;
        }
      }
    }
  }

  /** Adding a card keeps the email of every user already met, and gives a new user the
      card's email. */
  lemma EmailOfExtend(prefix: seq<AdminCard>, card: AdminCard)
    ensures forall u :: u in FirstSeen(prefix) ==> EmailOf(prefix + [card], u) == EmailOf(prefix, u)
    ensures card.userId !in FirstSeen(prefix) ==> EmailOf(prefix + [card], card.userId) == card.email
  {
    FirstSeenMembers(prefix);
    forall u | u in FirstSeen(prefix)
      ensures EmailOf(prefix + [card], u) == EmailOf(prefix, u)
    {
      EmailOfAppend(prefix, [card], u);
    }
    EmailOfAppend(prefix, [card], card.userId);
  }

  /** A user is listed exactly when it owns a card. */
  lemma {:induction false} FirstSeenMembers(cards: seq<AdminCard>)
    ensures forall u :: u in FirstSeen(cards) <==> OwnsSome(cards, u)
    decreases |cards|
  {
    if cards != [] {
      var p := cards[..|cards| - 1];
      FirstSeenMembers(p);
      forall u
        ensures u in FirstSeen(cards) <==> OwnsSome(cards, u)
      {
        if OwnsSome(p, u) {
          var k :| 0 <= k < |p| && p[k].userId == u;
          assert cards[k].userId == u;
        }
        if OwnsSome(cards, u) && cards[|cards| - 1].userId != u {
          var k :| 0 <= k < |cards| && cards[k].userId == u;
          assert p[k].userId == u;
        }
      }
    }
  }

  predicate Distinct(ids: seq<string>) {
    forall i, j :: 0 <= i < j < |ids| ==> ids[i] != ids[j]
  }

  /** No user is listed twice. */
  lemma {:induction false} FirstSeenDistinct(cards: seq<AdminCard>)
    ensures Distinct(FirstSeen(cards))
    decreases |cards|
  {
    if cards != [] {
      FirstSeenDistinct(cards[..|cards| - 1]);
    }
  }

  function Count(ids: seq<string>, u: string): nat {
    if ids == [] then 0 else (if ids[0] == u then 1 else 0) + Count(ids[1..], u)
  }

  /** The number of cards over the listed users. */
  function TotalCards(cards: seq<AdminCard>, ids: seq<string>): nat {
    if ids == [] then 0 else |CardsOf(cards, ids[0])| + TotalCards(cards, ids[1..])
  }

  lemma {:induction false} CardsOfAppend(a: seq<AdminCard>, b: seq<AdminCard>, u: string)
    ensures CardsOf(a + b, u) == CardsOf(a, u) + CardsOf(b, u)
  {
    if a == [] {
      assert a + b == b;
    } else {
      assert (a + b)[1..] == a[1..] + b;
      CardsOfAppend(a[1..], b, u);
    }
  }

  lemma {:induction false} TotalCardsAddCard(p: seq<AdminCard>, c: AdminCard, ids: seq<string>)
    ensures TotalCards(p + [c], ids) == TotalCards(p, ids) + Count(ids, c.userId)
  {
    if ids != [] {
      TotalCardsAddCard(p, c, ids[1..]);
      CardsOfAppend(p, [c], ids[0]);
    }
  }

  lemma {:induction false} TotalCardsAddId(p: seq<AdminCard>, ids: seq<string>, u: string)
    ensures TotalCards(p, ids + [u]) == TotalCards(p, ids) + |CardsOf(p, u)|
  {
    if ids == [] {
      assert [u][1..] == [];
    } else {
      assert (ids + [u])[1..] == ids[1..] + [u];
      TotalCardsAddId(p, ids[1..], u);
    }
  }

  lemma {:induction false} CountAppend(ids: seq<string>, v: string, u: string)
    ensures Count(ids + [v], u) == Count(ids, u) + (if v == u then 1 else 0)
  {
    if ids == [] {
      assert [v][1..] == [];
    } else {
      assert (ids + [v])[1..] == ids[1..] + [v];
      CountAppend(ids[1..], v, u);
    }
  }

  lemma {:induction false} CountDistinct(ids: seq<string>, u: string)
    requires Distinct(ids)
    ensures Count(ids, u) == if u in ids then 1 else 0
  {
    if ids != [] {
      CountDistinct(ids[1..], u);
      if ids[0] == u {
        assert u !in ids[1..] by {
          forall j | 0 <= j < |ids[1..]|
            ensures ids[1..][j] != u
          {
            assert ids[1..][j] == ids[j + 1];
          }
        }
      }
    }
  }

  lemma {:induction false} CardsOfNone(cards: seq<AdminCard>, u: string)
    requires !OwnsSome(cards, u)
    ensures CardsOf(cards, u) == []
  {
    if cards != [] {
      assert cards[0].userId != u;
      assert !OwnsSome(cards[1..], u) by {
        forall k | 0 <= k < |cards[1..]|
          ensures cards[1..][k].userId != u
        {
          assert cards[1..][k] == cards[k + 1];
        }
      }
      CardsOfNone(cards[1..], u);
    }
  }

  /** The users' card lists partition `cards`: their lengths add up to the number of cards. */
  lemma {:induction false} UsersPartition(cards: seq<AdminCard>)
    ensures TotalCards(cards, FirstSeen(cards)) == |cards|
    decreases |cards|
  {
    if cards != [] {
      var p := cards[..|cards| - 1];
      var c := cards[|cards| - 1];
      assert cards == p + [c];
      UsersPartition(p);
      var ids := FirstSeen(p);
      FirstSeenDistinct(p);
      FirstSeenMembers(p);
      if c.userId in ids {
        TotalCardsAddCard(p, c, ids);
        CountDistinct(ids, c.userId);
      } else {
        TotalCardsAddCard(p, c, ids + [c.userId]);
        TotalCardsAddId(p, ids, c.userId);
        CountAppend(ids, c.userId, c.userId);
        CountDistinct(ids, c.userId);
        CardsOfNone(p, c.userId);
      }
    }
  }

  // ---- search ----

  /** The search test: the lower-cased term occurs in the lower-cased name, email or
      title; a null title never matches. */
  predicate Matches(card: AdminCard, term: string) {
    var t := Lower(term);
    || Contains(Lower(card.name), t)
    || Contains(Lower(card.email), t)
    || (card.title.Some? && Contains(Lower(card.title.value), t))
  }

  /** `filteredCards`. */
  function FilteredCards(cards: seq<AdminCard>, term: string): seq<AdminCard> {
    Seqs.Filter(cards, (c: AdminCard) => Matches(c, term))
  }

  /** The search keeps the cards that match and only those, in their original order. */
  lemma FilteredCardsSpec(cards: seq<AdminCard>, term: string)
    ensures Seqs.IsSubsequence(FilteredCards(cards, term), cards)
    ensures forall c :: c in FilteredCards(cards, term) <==> c in cards && Matches(c, term)
  {
    Seqs.FilterSubsequence(cards, (c: AdminCard) => Matches(c, term));
    Seqs.FilterMembers(cards, (c: AdminCard) => Matches(c, term));
  }

  /** An empty search keeps every card. */
  lemma EmptySearchKeepsAll(cards: seq<AdminCard>)
    ensures FilteredCards(cards, "") == cards
  {
    forall c: AdminCard
      ensures Matches(c, "")
    {
      ContainsEmpty(Lower(c.name));
    }
    Seqs.FilterAll(cards, (c: AdminCard) => Matches(c, ""));
  }

  /** The search ignores ASCII case. */
  lemma SearchIgnoresCase(card: AdminCard)
    requires card.name == "Jean"
    ensures Matches(card, "JE") && Matches(card, "ea")
  {
    assert Lower("JE") == "je" && Lower("Jean") == "jean";
    assert StartsWith("jean", "je");
    assert StartsWith("ean", "ea");
  }

  // ---- the dashboard ----

  predicate NotId(c: AdminCard, id: string) {
    c.id != id
  }

  class AdminDashboard {
    var cards: seq<AdminCard>
    var loading: bool
    var accessDenied: bool

    constructor ()
      ensures cards == [] && loading && !accessDenied
    {
      cards, loading, accessDenied := [], true, false;
    }

    /** `checkAdminAndFetch` with the query's result, newest card first (`None` when the
        select fails, which leaves the list empty as it was). */
    method CheckAdminAndFetch(user: Option<User>, fetched: Option<seq<AdminCard>>)
      modifies this
      ensures accessDenied <==> !IsAdmin(user)
      ensures !loading
      ensures IsAdmin(user) && fetched.Some? ==> cards == fetched.value
      ensures !IsAdmin(user) || fetched.None? ==> cards == old(cards)
    {
      if user.None? {
        accessDenied := true;
        loading := false;
        return;
      }
      if user.value.email != Some(ADMIN_EMAIL) {
        accessDenied := true;
        loading := false;
        return;
      }
      accessDenied := false;
      if fetched.Some? {
        cards := fetched.value;
      }
      loading := false;
    }

    /** `handleDeleteCard(id)`: after the three deletes succeed the card leaves the local
        list and the rest keep their order; otherwise the list stays as it was. */
    method HandleDeleteCard(db: Db, id: string, confirmed: bool, faults: set<Step>)
      returns (db': Db, outcome: Outcome)
      modifies this
      ensures !confirmed ==> db' == db && outcome == Skipped
      ensures confirmed ==>
        (outcome == Done <==> DeleteSocials !in faults && DeletePortfolio !in faults && DeleteCard !in faults)
      ensures outcome == Done ==> db' == Deleted(db, id)
      ensures confirmed && DeleteSocials in faults ==> db' == db && outcome == Failed(DeleteSocials)
      ensures confirmed && DeleteSocials !in faults && DeletePortfolio in faults ==>
        && db' == db.(socialLinks := RowsNotOf(db.socialLinks, id))
        && outcome == Failed(DeletePortfolio)
      ensures confirmed && DeleteSocials !in faults && DeletePortfolio !in faults && DeleteCard in faults ==>
        && db' == db.(socialLinks := RowsNotOf(db.socialLinks, id), portfolioItems := RowsNotOf(db.portfolioItems, id))
        && outcome == Failed(DeleteCard)
      ensures outcome == Done ==> cards == Seqs.Filter(old(cards), (c: AdminCard) => NotId(c, id))
      ensures outcome != Done ==> cards == old(cards)
      ensures loading == old(loading) && accessDenied == old(accessDenied)
    {
      if !confirmed {
        return db, Skipped;
      }
      db', outcome := DeleteCardCascade(db, id, faults);
      if outcome == Done {
        cards := Seqs.Filter(cards, (c: AdminCard) => NotId(c, id));
      }
    }
  }

  /** The local list after a delete holds no card with that id and every other card, in order. */
  lemma LocalListAfterDelete(cards: seq<AdminCard>, id: string)
    ensures var r := Seqs.Filter(cards, (c: AdminCard) => NotId(c, id));
      && Seqs.IsSubsequence(r, cards)
      && forall c :: c in r <==> c in cards && c.id != id
  {
    Seqs.FilterSubsequence(cards, (c: AdminCard) => NotId(c, id));
    Seqs.FilterMembers(cards, (c: AdminCard) => NotId(c, id));
  }
}
