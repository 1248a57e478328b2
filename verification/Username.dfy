/** The username given to a new single-sign-on account: derived from the email, numbered until one is free. */
module Username {
  import opened Base
  import opened Text

  const ATTEMPTS: nat := 20
  const MAX_BASE: nat := 24

  predicate IsAlnum(c: char) { 'a' <= c <= 'z' || 'A' <= c <= 'Z' || IsDigit(c) }

  predicate IsAllowed(c: char) { IsAlnum(c) || c == '.' || c == '_' }

  predicate IsDot(c: char) { c == '.' || c == '_' }

  /** The CHECK constraint `username_display_format`. */
  predicate WellFormed(s: string) {
    1 <= |s| <= 30 && IsAlnum(s[0]) && IsAlnum(s[|s| - 1]) && forall c | c in s :: IsAllowed(c)
  }

  // ----- the base -----

  /** `Cut(email, "@")`, with the fallback for a missing or empty local part. */
  function LocalPart(email: string): string {
    var local := Before(email);
    if local.None? || local.value == "" then "user" else local.value
  }

  function Before(email: string): Option<string> {
    if email == [] then None
    else if email[0] == '@' then Some([])
    else match Before(email[1..]) case None => None case Some(s) => Some([email[0]] + s)
  }

  function Sanitize(s: string): string {
    if s == [] then [] else (if IsAllowed(s[0]) then [s[0]] else []) + Sanitize(s[1..])
  }

  function TrimDotsLeft(s: string): string { if s != [] && IsDot(s[0]) then TrimDotsLeft(s[1..]) else s }

  function TrimDotsRight(s: string): string { if s != [] && IsDot(s[|s| - 1]) then TrimDotsRight(s[..|s| - 1]) else s }

  /** The sanitized local part, before truncation. */
  function Stem(email: string): string { TrimDotsRight(TrimDotsLeft(Sanitize(LocalPart(email)))) }

  function BaseName(email: string): string {
    var stem := Stem(email);
    var cut := if |stem| > MAX_BASE then stem[..MAX_BASE] else stem;
    if |cut| < 2 then "user" + cut else cut
  }

  function Candidate(email: string, attempt: nat): string {
    if attempt == 0 then BaseName(email) else BaseName(email) + Decimal(attempt)
  }

  // ----- the loop -----

  /** The candidate of attempt `k` is the first that is not taken. */
  ghost predicate FirstFree(email: string, lookup: string -> Option<bool>, k: nat) {
    && k < ATTEMPTS
    && lookup(Candidate(email, k)) == Some(false)
    && forall j: nat | j < k :: lookup(Candidate(email, j)) == Some(true)
  }

  /** The search from attempt `k` on. */
  function Pick(email: string, lookup: string -> Option<bool>, k: nat): Option<string>
    decreases ATTEMPTS - k
  {
    if k >= ATTEMPTS then None
    else match lookup(Candidate(email, k))
      case None => None
      case Some(taken) => if taken then Pick(email, lookup, k + 1) else Some(Candidate(email, k))
  }

  /** `generateUniqueUsernameFromEmail`; a lookup may fail, which ends the search. */
  method GenerateUniqueUsername(email: string, lookup: string -> Option<bool>) returns (name: Option<string>)
    ensures name.Some? ==> exists k: nat :: FirstFree(email, lookup, k) && name.value == Candidate(email, k)
    ensures name.None? ==> forall k: nat :: !FirstFree(email, lookup, k)
    ensures name == Pick(email, lookup, 0)
  {
    var attempt := 0;
    while attempt < ATTEMPTS
      invariant attempt <= ATTEMPTS
      invariant Pick(email, lookup, 0) == Pick(email, lookup, attempt)
      invariant forall j: nat | j < attempt :: lookup(Candidate(email, j)) == Some(true)
    {
      var candidate := Candidate(email, attempt);
      var taken := lookup(candidate);
      if taken.None? { return None; }
      if !taken.value {
        assert FirstFree(email, lookup, attempt);
        return Some(candidate);
      }
      attempt := attempt + 1;
    }
    return None;
  }

  lemma {:induction false} PickedIsFirstFree(email: string, lookup: string -> Option<bool>, k: nat)
    requires k <= ATTEMPTS && forall j: nat | j < k :: lookup(Candidate(email, j)) == Some(true)
    requires Pick(email, lookup, k).Some?
    ensures exists i: nat :: FirstFree(email, lookup, i) && Pick(email, lookup, k).value == Candidate(email, i)
    decreases ATTEMPTS - k
  {
    if lookup(Candidate(email, k)) == Some(true) {
      PickedIsFirstFree(email, lookup, k + 1);
    } else {
      assert FirstFree(email, lookup, k);
    }
  }

  lemma {:induction false} FirstFreeIsPicked(email: string, lookup: string -> Option<bool>, i: nat, k: nat)
    requires FirstFree(email, lookup, i) && k <= i
    ensures Pick(email, lookup, k) == Some(Candidate(email, i))
    decreases i - k
  {
    if k < i { FirstFreeIsPicked(email, lookup, i, k + 1); }
  }

  // ----- what a candidate looks like -----

  lemma {:induction false} SanitizedIsAllowed(s: string)
    ensures forall c | c in Sanitize(s) :: IsAllowed(c)
  {
    if s != [] { SanitizedIsAllowed(s[1..]); }
  }

  lemma {:induction false} LeftTrimmed(s: string)
    requires forall c | c in s :: IsAllowed(c)
    ensures var t := TrimDotsLeft(s); (forall c | c in t :: IsAllowed(c)) && (t != [] ==> IsAlnum(t[0]))
  {
    if s != [] {
      assert s[0] in s;
      if IsDot(s[0]) { LeftTrimmed(s[1..]); }
    }
  }

  lemma {:induction false} RightTrimmed(s: string)
    requires (forall c | c in s :: IsAllowed(c)) && (s != [] ==> IsAlnum(s[0]))
    ensures
      var t := TrimDotsRight(s);
      (forall c | c in t :: IsAllowed(c)) && (t != [] ==> IsAlnum(t[0]) && IsAlnum(t[|t| - 1]))
  {
    if s != [] {
      assert s[|s| - 1] in s;
      if IsDot(s[|s| - 1]) { RightTrimmed(s[..|s| - 1]); }
    }
  }

  lemma StemIsTrimmed(email: string)
    ensures var t := Stem(email); (forall c | c in t :: IsAllowed(c)) && (t != [] ==> IsAlnum(t[0]) && IsAlnum(t[|t| - 1]))
  {
    SanitizedIsAllowed(LocalPart(email));
    LeftTrimmed(Sanitize(LocalPart(email)));
    RightTrimmed(TrimDotsLeft(Sanitize(LocalPart(email))));
  }

  /** Truncation cut the stem right after a dot or underscore. */
  predicate CutAtDot(email: string) { |Stem(email)| > MAX_BASE && IsDot(Stem(email)[MAX_BASE - 1]) }

  lemma BaseShape(email: string)
    ensures
      var b := BaseName(email);
      && 2 <= |b| <= MAX_BASE && IsAlnum(b[0])
      && (forall c | c in b :: IsAllowed(c))
      && (IsAlnum(b[|b| - 1]) <==> !CutAtDot(email))
  {
    StemIsTrimmed(email);
    var stem, b := Stem(email), BaseName(email);
    if |stem| > MAX_BASE {
      assert stem[MAX_BASE - 1] in stem && b[|b| - 1] == stem[MAX_BASE - 1];
    } else if |stem| == 1 {
      assert b[|b| - 1] == stem[0];
    } else if |stem| == 0 {
      assert b == "user";
    }
  }

  lemma SuffixShape(k: nat)
    requires 0 < k < ATTEMPTS
    ensures var d := Decimal(k); 1 <= |d| <= 2 && forall c | c in d :: IsDigit(c)
  {
    DecimalDigits(k);
    assert k / 10 < 10;
  }

  /**
   * Every candidate is 2 to 26 characters of the allowed alphabet and starts
   * with a letter or digit. It meets the column's constraint except in one
   * case: no number was added and truncation cut right after a dot or underscore.
   */
  lemma CandidateShape(email: string, k: nat)
    requires k < ATTEMPTS
    ensures
      var c := Candidate(email, k);
      && 2 <= |c| <= 26 && IsAlnum(c[0])
      && (forall x | x in c :: IsAllowed(x))
      && (WellFormed(c) <==> k > 0 || !CutAtDot(email))
  {
    BaseShape(email);
    if k > 0 {
      SuffixShape(k);
      var c, d := Candidate(email, k), Decimal(k);
      assert c[|c| - 1] == d[|d| - 1];
    }
  }

  // ----- the failing case exists -----

  lemma {:induction false} BeforeAt(local: string, domain: string)
    requires '@' !in local
    ensures Before(local + ['@'] + domain) == Some(local)
  {
    var email := local + ['@'] + domain;
    if local != [] {
      assert email[1..] == local[1..] + ['@'] + domain;
      BeforeAt(local[1..], domain);
      assert local == [local[0]] + local[1..];
    }
  }

  lemma {:induction false} SanitizeClean(s: string)
    requires forall c | c in s :: IsAllowed(c)
    ensures Sanitize(s) == s
  {
    if s != [] {
      SanitizeClean(s[1..]);
      assert s == [s[0]] + s[1..];
    }
  }

  lemma StemOfClean(local: string, domain: string)
    requires local != [] && (forall c | c in local :: IsAllowed(c)) && IsAlnum(local[0]) && IsAlnum(local[|local| - 1])
    ensures Stem(local + ['@'] + domain) == local
  {
    assert !IsAllowed('@');
    BeforeAt(local, domain);
    assert LocalPart(local + ['@'] + domain) == local;
    SanitizeClean(local);
    assert TrimDotsLeft(local) == local && TrimDotsRight(local) == local;
  }

  /** A clean local part longer than 24 characters with a dot in the 24th place yields a first candidate that the column rejects. */
  lemma LongLocalPartIsRejected(local: string, domain: string)
    requires |local| > MAX_BASE && local[MAX_BASE - 1] == '.' && (forall c | c in local :: IsAllowed(c))
    requires IsAlnum(local[0]) && IsAlnum(local[|local| - 1])
    ensures !WellFormed(Candidate(local + ['@'] + domain, 0))
  {
    var email := local + ['@'] + domain;
    StemOfClean(local, domain);
    assert CutAtDot(email);
    CandidateShape(email, 0);
  }

  lemma RejectedExample()
    ensures !WellFormed(Candidate("aaaaaaaaaaaaaaaaaaaaaaa.b" + ['@'] + "example.com", 0))
  {
    LongLocalPartIsRejected("aaaaaaaaaaaaaaaaaaaaaaa.b", "example.com");
  }

  // ----- what the name is made of -----

  /** The candidates for an ordinary email are its local part, then the local part with 1, 2, … appended. */
  lemma OrdinaryCandidates(local: string, domain: string, k: nat)
    requires 2 <= |local| <= 24 && (forall c | c in local :: IsAllowed(c)) && IsAlnum(local[0]) && IsAlnum(local[|local| - 1])
    ensures Candidate(local + ['@'] + domain, k) == if k == 0 then local else local + Decimal(k)
  {
    StemOfClean(local, domain);
  }

  /** A longer one is cut to its first 24 characters. */
  lemma LongCandidates(local: string, domain: string, k: nat)
    requires |local| > 24 && (forall c | c in local :: IsAllowed(c)) && IsAlnum(local[0]) && IsAlnum(local[|local| - 1])
    ensures Candidate(local + ['@'] + domain, k) == if k == 0 then local[..24] else local[..24] + Decimal(k)
  {
    StemOfClean(local, domain);
  }

  lemma {:induction false} SanitizeConcat(a: string, b: string)
    ensures Sanitize(a + b) == Sanitize(a) + Sanitize(b)
  {
    if a == [] {
      assert a + b == b;
    } else {
      var head := if IsAllowed(a[0]) then [a[0]] else [];
      var front, back := Sanitize(a[1..]), Sanitize(b);
      SanitizeConcat(a[1..], b);
      assert (a + b)[1..] == a[1..] + b && (a + b)[0] == a[0];
      assert Sanitize(a + b) == head + (front + back);
      assert head + (front + back) == (head + front) + back;
    }
  }

  /** Characters outside the alphabet are dropped, all others kept in order. */
  lemma SanitizeParts(a: string, c: char, b: string)
    ensures Sanitize(a + [c] + b) == Sanitize(a) + (if IsAllowed(c) then [c] else []) + Sanitize(b)
  {
    SanitizeConcat(a + [c], b);
    SanitizeConcat(a, [c]);
  }

  /** Dots and underscores at the ends go, and nothing between. */
  lemma {:induction false} TrimDotsParts(left: string, core: string, right: string)
    requires (forall c | c in left :: IsDot(c)) && (forall c | c in right :: IsDot(c))
    requires core != [] && !IsDot(core[0]) && !IsDot(core[|core| - 1])
    ensures TrimDotsRight(TrimDotsLeft(left + core + right)) == core
    decreases |left| + |right|
  {
    var s := left + core + right;
    if left != [] {
      assert left[0] in left;
      assert s[0] == left[0] && s[1..] == left[1..] + core + right;
      TrimDotsParts(left[1..], core, right);
    } else if right != [] {
      assert right[|right| - 1] in right;
      assert s[0] == core[0] && s[|s| - 1] == right[|right| - 1];
      var s1 := [] + core + right[..|right| - 1];
      assert s[..|s| - 1] == s1 && s1[0] == core[0];
      assert TrimDotsLeft(s) == s && TrimDotsLeft(s1) == s1;
      TrimDotsParts([], core, right[..|right| - 1]);
    } else {
      assert s == core;
    }
  }

  /** Without a local part, or with nothing left of it, the name is made from "user". */
  lemma FallbackNames(domain: string)
    ensures Candidate(['@'] + domain, 0) == "user"
    ensures forall email: string | '@' !in email :: Candidate(email, 0) == "user"
  {
    assert Before(['@'] + domain) == Some([]);
    UserName(['@'] + domain);
    forall email: string | '@' !in email ensures Candidate(email, 0) == "user" {
      NoLocalPart(email);
      UserName(email);
    }
  }

  lemma {:induction false} NoLocalPart(email: string)
    requires '@' !in email
    ensures Before(email).None?
  {
    if email != [] { NoLocalPart(email[1..]); }
  }

  lemma UserName(email: string)
    requires LocalPart(email) == "user"
    ensures Candidate(email, 0) == "user"
  {
    SanitizeClean("user");
    assert TrimDotsLeft("user") == "user" && TrimDotsRight("user") == "user";
  }

  // ----- how long is searched -----

  /** Twenty candidates are looked up, in order; the answer is the first one known to be free, if all before it are known to be taken. */
  lemma PickIff(email: string, lookup: string -> Option<bool>, name: string)
    ensures Pick(email, lookup, 0) == Some(name) <==>
      exists k: nat :: k < 20 && name == Candidate(email, k) && lookup(name) == Some(false)
                       && forall j: nat | j < k :: lookup(Candidate(email, j)) == Some(true)
  {
    if Pick(email, lookup, 0) == Some(name) { PickedIsFirstFree(email, lookup, 0); }
    if exists k: nat :: k < 20 && name == Candidate(email, k) && lookup(name) == Some(false)
                        && forall j: nat | j < k :: lookup(Candidate(email, j)) == Some(true)
    {
      var k: nat :| k < 20 && name == Candidate(email, k) && lookup(name) == Some(false)
                    && forall j: nat | j < k :: lookup(Candidate(email, j)) == Some(true);
      assert FirstFree(email, lookup, k);
      FirstFreeIsPicked(email, lookup, k, 0);
    }
  }
}
