/**
 * The e-mail pattern the registration handler tests before any lookup
 * (server.js:61): `^[a-zA-Z0-9._%+-]+@[a-zA-Z0-9.-]+\.[a-zA-Z]{2,}$`.
 *
 * `Splits` and `MatchesPattern` state the language of the regular expression
 * directly; `Test` is a decision procedure for it (find the first '@' and the
 * last '.') and `TestIsPattern` proves the two agree on every string.
 */
module EmailPattern {

  predicate Letter(c: char) { ('a' <= c <= 'z') || ('A' <= c <= 'Z') }

  predicate Digit(c: char) { '0' <= c <= '9' }

  /** `[a-zA-Z0-9._%+-]` */
  predicate LocalChar(c: char)
  {
    Letter(c) || Digit(c) || c == '.' || c == '_' || c == '%' || c == '+' || c == '-'
  }

  /** `[a-zA-Z0-9.-]` */
  predicate DomainChar(c: char)
  {
    Letter(c) || Digit(c) || c == '.' || c == '-'
  }

  /** `s` reads as local part `s[..at]`, then '@', then domain `s[at+1..dot]`, then '.',
      then top-level label `s[dot+1..]`, each part drawn from its character class and
      of the length the pattern demands. */
  predicate Splits(s: string, at: int, dot: int)
  {
    && 0 < at && at + 1 < dot && dot + 2 < |s|
    && s[at] == '@' && s[dot] == '.'
    && (forall k :: 0 <= k < at ==> LocalChar(s[k]))
    && (forall k :: at < k < dot ==> DomainChar(s[k]))
    && (forall k :: dot < k < |s| ==> Letter(s[k]))
  }

  /** The language of the regular expression. */
  ghost predicate MatchesPattern(s: string)
  {
    exists at, dot :: Splits(s, at, dot)
  }

  /** Position of the first `c` in `s`, or `|s|` when there is none. */
  function IndexOf(s: string, c: char): (i: nat)
    ensures i <= |s|
    ensures i < |s| ==> s[i] == c
    ensures forall k :: 0 <= k < i ==> s[k] != c
  {
    if s == [] then 0 else if s[0] == c then 0 else 1 + IndexOf(s[1..], c)
  }

  /** Position of the last `c` in `s`, or -1 when there is none. */
  function LastIndexOf(s: string, c: char): (i: int)
    ensures -1 <= i < |s|
    ensures 0 <= i ==> s[i] == c
    ensures forall k :: i < k < |s| ==> s[k] != c
  {
    if s == [] then -1 else if s[|s| - 1] == c then |s| - 1 else LastIndexOf(s[..|s| - 1], c)
  }

  /** `re.test(s)`: the split at the first '@' and the last '.' is the only candidate. */
  predicate Test(s: string)
  {
    Splits(s, IndexOf(s, '@'), LastIndexOf(s, '.'))
  }

  /** The decision procedure accepts exactly the strings of the pattern's language. */
  lemma TestIsPattern(s: string)
    ensures Test(s) <==> MatchesPattern(s)
  {
    if MatchesPattern(s) {
      var at, dot :| Splits(s, at, dot);
      assert IndexOf(s, '@') == at by {
        assert !LocalChar('@');
      }
      assert LastIndexOf(s, '.') == dot by {
        assert !Letter('.');
      }
    }
  }

  /** A matching string contains exactly one '@', and it ends in '.' followed by at least
      two ASCII letters. */
  lemma MatchShape(s: string)
    requires MatchesPattern(s)
    ensures exists at :: 0 < at < |s| && s[at] == '@' && forall k :: 0 <= k < |s| && s[k] == '@' ==> k == at
    ensures |s| >= 3 && Letter(s[|s| - 1]) && Letter(s[|s| - 2])
    ensures exists dot :: 0 < dot < |s| - 2 && s[dot] == '.'
  {
    var at, dot :| Splits(s, at, dot);
    assert !LocalChar('@') && !DomainChar('@') && !Letter('@');
    assert forall k :: 0 <= k < |s| && s[k] == '@' ==> k == at;
  }

  /** An ordinary address is accepted. */
  lemma ExampleAccepted()
    ensures Test("ann@example.com")
  {
    var local, domain, top := "ann", "example", "com";
    var s := local + "@" + domain + "." + top;
    assert s == "ann@example.com";
    forall k | 0 <= k < 3 ensures LocalChar(s[k]) {
      assert s[k] == local[k];
    }
    forall k | 3 < k < 11 ensures DomainChar(s[k]) {
      assert s[k] == domain[k - 4];
    }
    forall k | 11 < k < |s| ensures Letter(s[k]) {
      assert s[k] == top[k - 12];
    }
    assert Splits(s, 3, 11);
    TestIsPattern(s);
  }

  /** A second '@' is rejected. */
  lemma ExampleTwoAts()
    ensures !Test("ann@ex@ample.com")
  {
    var s := "ann@ex@ample.com";
    assert s[3] == '@' && s[6] == '@';
    TestIsPattern(s);
    if Test(s) {
      MatchShape(s);
    }
  }

  /** A one-letter top-level label is rejected. */
  lemma ExampleShortLabel()
    ensures !Test("ann@example.c")
  {
    var s := "ann@example.c";
    assert s[|s| - 2] == '.';
    TestIsPattern(s);
    if Test(s) {
      MatchShape(s);
    }
  }
}
