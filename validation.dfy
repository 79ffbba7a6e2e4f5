/** The three format checks of the create page's `validateForm`, each a regular
    expression written out as character classes. */
module Validation {
  import opened Text

  predicate IsDigit(c: char) {
    '0' <= c <= '9'
  }

  predicate IsLetter(c: char) {
    'a' <= c <= 'z' || 'A' <= c <= 'Z'
  }

  predicate IsAlnum(c: char) {
    IsLetter(c) || IsDigit(c)
  }

  // ---- email: /^[^\s@]+@[^\s@]+\.[^\s@]+$/ ----

  /** The class `[^\s@]`. */
  predicate IsEmailChar(c: char) {
    !IsSpace(c) && c != '@'
  }

  predicate AllEmailChars(s: string) {
    forall i :: 0 <= i < |s| ==> IsEmailChar(s[i])
  }

  /** The pattern matches with its `@` at index `at` and its `\.` at index `dot`. */
  predicate EmailMatchesAt(s: string, at: int, dot: int) {
    && 0 < at && at + 1 < dot && dot + 1 < |s|
    && s[at] == '@' && s[dot] == '.'
    && AllEmailChars(s[..at]) && AllEmailChars(s[at + 1..dot]) && AllEmailChars(s[dot + 1..])
  }

  predicate IsValidEmail(s: string) {
    exists at, dot | 0 <= at < |s| && 0 <= dot < |s| :: EmailMatchesAt(s, at, dot)
  }

  /** What the email pattern amounts to: no white space at all, exactly one `@`, not at the
      start, and a `.` somewhere after the character that follows the `@` but not at the end. */
  lemma EmailShape(s: string)
    ensures IsValidEmail(s) <==>
      && (forall i :: 0 <= i < |s| ==> !IsSpace(s[i]))
      && exists at :: 0 < at < |s| && s[at] == '@'
           && (forall i :: 0 <= i < |s| && s[i] == '@' ==> i == at)
           && exists dot :: at + 1 < dot < |s| - 1 && s[dot] == '.'
  {
    if IsValidEmail(s) {
      var at, dot :| 0 <= at < |s| && 0 <= dot < |s| && EmailMatchesAt(s, at, dot);
      forall i | 0 <= i < |s| && i != at
        ensures IsEmailChar(s[i])
      {
        if i < at {
          assert s[..at][i] == s[i];
        } else if i < dot {
          assert s[at + 1..dot][i - at - 1] == s[i];
        } else if i > dot {
          assert s[dot + 1..][i - dot - 1] == s[i];
        }
      }
    }
    if && (forall i :: 0 <= i < |s| ==> !IsSpace(s[i]))
       && exists at :: 0 < at < |s| && s[at] == '@'
            && (forall i :: 0 <= i < |s| && s[i] == '@' ==> i == at)
            && exists dot :: at + 1 < dot < |s| - 1 && s[dot] == '.'
    {
      var at :| 0 < at < |s| && s[at] == '@'
            && (forall i :: 0 <= i < |s| && s[i] == '@' ==> i == at)
            && exists dot :: at + 1 < dot < |s| - 1 && s[dot] == '.';
      var dot :| at + 1 < dot < |s| - 1 && s[dot] == '.';
      assert EmailMatchesAt(s, at, dot);
    }
  }

  /** A well-formed address is accepted and `not-an-email` is not. */
  lemma EmailExamples()
    ensures IsValidEmail("jean@x.com")
    ensures !IsValidEmail("not-an-email")
    ensures IsValidEmail("a@.b.c")
  {
    assert EmailMatchesAt("jean@x.com", 4, 6);
    assert EmailMatchesAt("a@.b.c", 1, 4);
    var s := "not-an-email";
    assert forall i :: 0 <= i < |s| ==> s[i] != '@';
  }

  // ---- phone: /^[\d\s+()-]{8,}$/ ----

  /** The class `[\d\s+()-]`. */
  predicate IsPhoneChar(c: char) {
    IsDigit(c) || IsSpace(c) || c == '+' || c == '(' || c == ')' || c == '-'
  }

  predicate IsValidPhone(s: string) {
    |s| >= 8 && forall i :: 0 <= i < |s| ==> IsPhoneChar(s[i])
  }

  /** No letter is a phone character, so a number with a letter in it is refused; any
      eight or more digits are accepted; and two accepted numbers joined by a space or a
      `-` are accepted again. */
  lemma PhoneShape(s: string, t: string, sep: char)
    ensures (exists i :: 0 <= i < |s| && IsLetter(s[i])) ==> !IsValidPhone(s)
    ensures |s| >= 8 && (forall i :: 0 <= i < |s| ==> IsDigit(s[i])) ==> IsValidPhone(s)
    ensures IsValidPhone(s) && IsValidPhone(t) && (sep == ' ' || sep == '-') ==> IsValidPhone(s + [sep] + t)
  {
    if IsValidPhone(s) && IsValidPhone(t) && (sep == ' ' || sep == '-') {
      var u := s + [sep] + t;
      forall i | 0 <= i < |u| ensures IsPhoneChar(u[i]) {
        if i < |s| {
          assert u[i] == s[i];
        } else if i > |s| {
          assert u[i] == t[i - |s| - 1];
        }
      }
    }
  }

  lemma PhoneExamples()
    ensures IsValidPhone("+33 6 12 34 56 78")
    ensures IsValidPhone("(+237) 699-000")
    ensures !IsValidPhone("0612345")
    ensures !IsValidPhone("06 12 34 56 78 poste 2")
  {
    var s := "06 12 34 56 78 poste 2";
    assert !IsPhoneChar(s[15]);
  }

  // ---- website: /^[a-zA-Z0-9][a-zA-Z0-9-]{1,61}[a-zA-Z0-9]\.[a-zA-Z]{2,}$/ ----

  /** The class `[a-zA-Z0-9-]`. */
  predicate IsLabelChar(c: char) {
    IsAlnum(c) || c == '-'
  }

  /** The pattern matches with its `\.` at index `dot`: a label of 3 to 63 characters that
      starts and ends with a letter or digit, the dot, and at least two letters. */
  predicate WebsiteMatchesAt(s: string, dot: int) {
    && 3 <= dot <= 63 && dot + 3 <= |s|
    && s[dot] == '.'
    && IsAlnum(s[0]) && IsAlnum(s[dot - 1])
    && (forall i :: 1 <= i < dot - 1 ==> IsLabelChar(s[i]))
    && (forall i :: dot < i < |s| ==> IsLetter(s[i]))
  }

  predicate IsValidWebsite(s: string) {
    exists dot | 0 <= dot < |s| :: WebsiteMatchesAt(s, dot)
  }

  /** The pattern has room for one dot only: any dot lies where the pattern puts its `\.`. */
  lemma WebsiteDotUnique(s: string, dot: int, i: int)
    requires 0 <= i < |s| && s[i] == '.'
    ensures WebsiteMatchesAt(s, dot) ==> i == dot
  {
  }

  /** An accepted website has exactly one dot, and the label before it has 3 to 63 characters. */
  lemma WebsiteShape(s: string)
    requires IsValidWebsite(s)
    ensures exists dot :: 3 <= dot <= 63 && dot < |s| && s[dot] == '.'
              && forall i :: 0 <= i < |s| && s[i] == '.' ==> i == dot
  {
    var dot :| 0 <= dot < |s| && WebsiteMatchesAt(s, dot);
    forall i | 0 <= i < |s| && s[i] == '.'
      ensures i == dot
    {
      WebsiteDotUnique(s, dot, i);
    }
  }

  /** So a host with two dots, such as one with a `www.` prefix, is refused. */
  lemma TwoDotsRejected(s: string, i: int, j: int)
    requires 0 <= i < j < |s| && s[i] == '.' && s[j] == '.'
    ensures !IsValidWebsite(s)
  {
    forall dot | 0 <= dot < |s|
      ensures !WebsiteMatchesAt(s, dot)
    {
      WebsiteDotUnique(s, dot, i);
      WebsiteDotUnique(s, dot, j);
    }
  }

  /** A host with a `www.` prefix or a second-level domain is refused, and so is a scheme;
      a bare two-part domain with a label of three or more characters is accepted. */
  lemma WebsiteExamples()
    ensures !IsValidWebsite("www.monsite.com")
    ensures !IsValidWebsite("https://monsite.com")
    ensures !IsValidWebsite("ab.com")
    ensures IsValidWebsite("monsite.com")
  {
    TwoDotsRejected("www.monsite.com", 3, 11);
    var h := "https://monsite.com";
    forall dot | 0 <= dot < |h|
      ensures !WebsiteMatchesAt(h, dot)
    {
      WebsiteDotUnique(h, dot, 15);
      assert !IsLabelChar(h[5]);
    }
    assert WebsiteMatchesAt("monsite.com", 7);
  }
}
