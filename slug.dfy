/** The slug that the create and edit pages derive from a card's name. */
module Slug {
  import opened Text
  import Seqs

  /** The class `[a-z0-9]`. */
  predicate IsSlugChar(c: char) {
    'a' <= c <= 'z' || '0' <= c <= '9'
  }

  predicate NotDash(c: char) {
    c != '-'
  }

  /** A clean base slug: only `[a-z0-9-]`, no leading or trailing `-`, no `--`. */
  predicate IsCleanSlug(s: string) {
    && (forall i :: 0 <= i < |s| ==> IsSlugChar(s[i]) || s[i] == '-')
    && (forall i :: 0 <= i < |s| - 1 ==> s[i] != '-' || s[i + 1] != '-')
    && (s != [] ==> s[0] != '-' && s[|s| - 1] != '-')
  }

  /** The characters after the first one of a run of `[^a-z0-9]+`. */
  function DropRun(s: string): (r: string)
    ensures |r| <= |s|
    ensures r != [] ==> IsSlugChar(r[0])
  {
    if s != [] && !IsSlugChar(s[0]) then DropRun(s[1..]) else s
  }

  /** `s.replace(/[^a-z0-9]+/g, '-')`: every maximal run outside `[a-z0-9]` becomes one `-`. */
  function CollapseRuns(s: string): string
    decreases |s|
  {
    if s == [] then []
    else if IsSlugChar(s[0]) then [s[0]] + CollapseRuns(s[1..])
    else ['-'] + CollapseRuns(DropRun(s[1..]))
  }

  /** `s.replace(/(^-|-$)/g, '')`: one leading and one trailing `-` are removed. */
  function StripDashes(s: string): string {
    var t := if s != [] && s[0] == '-' then s[1..] else s;
    if t != [] && t[|t| - 1] == '-' then t[..|t| - 1] else t
  }

  /** `baseSlug` in CreateCard.saveCard and EditCard.handleSave. */
  function BaseSlug(name: string): string {
    StripDashes(CollapseRuns(Lower(name)))
  }

  /** `${baseSlug}-${suffix}`, the random suffix being an input. */
  function UniqueSlug(name: string, suffix: string): (slug: string)
    ensures |slug| == |BaseSlug(name)| + 1 + |suffix|
    ensures IsCleanSlug(slug[..|BaseSlug(name)|])
    ensures slug[|BaseSlug(name)|] == '-' && slug[|BaseSlug(name)| + 1..] == suffix
  {
    BaseSlugClean(name);
    var slug := BaseSlug(name) + "-" + suffix;
    assert slug[..|BaseSlug(name)|] == BaseSlug(name);
    slug
  }

  // ---- shape of the collapsed text ----

  predicate Collapsed(s: string) {
    && (forall i :: 0 <= i < |s| ==> IsSlugChar(s[i]) || s[i] == '-')
    && (forall i :: 0 <= i < |s| - 1 ==> s[i] != '-' || s[i + 1] != '-')
  }

  lemma {:induction false} CollapseRunsHead(s: string)
    requires s != [] && IsSlugChar(s[0])
    ensures CollapseRuns(s) != [] && CollapseRuns(s)[0] == s[0]
  {
  }

  lemma {:induction false} CollapseRunsShape(s: string)
    ensures Collapsed(CollapseRuns(s))
    decreases |s|
  {
    if s == [] {
    } else if IsSlugChar(s[0]) {
      CollapseRunsShape(s[1..]);
    } else {
      var d := DropRun(s[1..]);
      CollapseRunsShape(d);
      if d != [] {
        CollapseRunsHead(d);
      }
    }
  }

  lemma StripDashesClean(s: string)
    requires Collapsed(s)
    ensures IsCleanSlug(StripDashes(s))
  {
    var t := if s != [] && s[0] == '-' then s[1..] else s;
    assert Collapsed(t);
    assert t != [] ==> t[0] != '-';
    var u := if t != [] && t[|t| - 1] == '-' then t[..|t| - 1] else t;
    assert u == StripDashes(s);
    if u != [] && u != t {
      assert t[|t| - 2] != '-';
    }
  }

  /** The base slug holds only `[a-z0-9-]`, has no leading or trailing `-` and no `--`. */
  lemma BaseSlugClean(name: string)
    ensures IsCleanSlug(BaseSlug(name))
  {
    CollapseRunsShape(Lower(name));
    StripDashesClean(CollapseRuns(Lower(name)));
  }

  // ---- content of the slug ----

  lemma {:induction false} DropRunContent(s: string)
    ensures Seqs.Filter(DropRun(s), IsSlugChar) == Seqs.Filter(s, IsSlugChar)
  {
    if s != [] && !IsSlugChar(s[0]) {
      DropRunContent(s[1..]);
    }
  }

  lemma {:induction false} CollapseRunsContent(s: string)
    ensures Seqs.Filter(CollapseRuns(s), NotDash) == Seqs.Filter(s, IsSlugChar)
    decreases |s|
  {
    if s == [] {
    } else if IsSlugChar(s[0]) {
      CollapseRunsContent(s[1..]);
      assert ([s[0]] + CollapseRuns(s[1..]))[1..] == CollapseRuns(s[1..]);
    } else {
      var d := DropRun(s[1..]);
      CollapseRunsContent(d);
      DropRunContent(s[1..]);
      assert (['-'] + CollapseRuns(d))[1..] == CollapseRuns(d);
    }
  }

  lemma StripDashesContent(s: string)
    ensures Seqs.Filter(StripDashes(s), NotDash) == Seqs.Filter(s, NotDash)
  {
    var t := if s != [] && s[0] == '-' then s[1..] else s;
    if s != [] && s[0] == '-' {
      assert s == ['-'] + s[1..];
      Seqs.FilterAppend(['-'], s[1..], NotDash);
    }
    if t != [] && t[|t| - 1] == '-' {
      assert t == t[..|t| - 1] + ['-'];
      Seqs.FilterAppend(t[..|t| - 1], ['-'], NotDash);
    }
  }

  /** Deleting the dashes of the base slug leaves exactly the `[a-z0-9]` characters of the
      lower-cased name, in order: the derivation loses no letter or digit and adds none. */
  lemma BaseSlugContent(name: string)
    ensures Seqs.Filter(BaseSlug(name), NotDash) == Seqs.Filter(Lower(name), IsSlugChar)
  {
    StripDashesContent(CollapseRuns(Lower(name)));
    CollapseRunsContent(Lower(name));
  }

  /** A name with no ASCII letter or digit yields the empty base slug, so the full slug is `-` and the suffix. */
  lemma AllSymbolName(name: string, suffix: string)
    requires forall i :: 0 <= i < |name| ==> !IsSlugChar(LowerChar(name[i]))
    ensures BaseSlug(name) == []
    ensures UniqueSlug(name, suffix) == "-" + suffix
  {
    var low := Lower(name);
    Seqs.FilterNone(low, IsSlugChar);
    BaseSlugContent(name);
    BaseSlugClean(name);
    var b := BaseSlug(name);
    Seqs.FilterEmpty(b, NotDash);
    assert b == [];
    assert UniqueSlug(name, suffix) == b + "-" + suffix;
  }

  // ---- a clean slug is its own slug ----

  lemma {:induction false} LowerOfClean(s: string)
    requires IsCleanSlug(s)
    ensures Lower(s) == s
  {
  }

  lemma {:induction false} CollapseRunsOfCollapsed(s: string)
    requires Collapsed(s)
    requires s != [] ==> s[0] != '-' || |s| == 1 || IsSlugChar(s[1])
    ensures CollapseRuns(s) == s
    decreases |s|
  {
    if s == [] {
    } else if IsSlugChar(s[0]) {
      CollapseRunsOfCollapsed(s[1..]);
    } else {
      assert s[0] == '-';
      assert DropRun(s[1..]) == s[1..];
      CollapseRunsOfCollapsed(s[1..]);
      assert s == ['-'] + s[1..];
    }
  }

  /** Deriving a slug from a name that is already a clean base slug gives the name back;
      in particular deriving is idempotent. */
  lemma BaseSlugOfClean(s: string)
    requires IsCleanSlug(s)
    ensures BaseSlug(s) == s
  {
    LowerOfClean(s);
    CollapseRunsOfCollapsed(s);
  }

  lemma BaseSlugIdempotent(name: string)
    ensures BaseSlug(BaseSlug(name)) == BaseSlug(name)
  {
    BaseSlugClean(name);
    BaseSlugOfClean(BaseSlug(name));
  }
}
