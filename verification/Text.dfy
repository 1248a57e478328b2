/** The string operations of Go's standard library that the service's parsers use. */
module Text {
  import opened Base

  /** White space as `unicode.IsSpace` and the scanning functions of `fmt` have it. */
  predicate IsSpace(c: char) {
    var u := c as int;
    || 9 <= u <= 13 || u == 32 || u == 0x85 || u == 0xA0 || u == 0x1680 || 0x2000 <= u <= 0x200a
    || u == 0x2028 || u == 0x2029 || u == 0x202f || u == 0x205f || u == 0x3000
  }

  predicate NoSpace(s: string) { forall c | c in s :: !IsSpace(c) }

  // ----- Split -----

  function Split(s: string, sep: char): (parts: seq<string>)
    ensures parts != []
  {
    if s == [] then [[]]
    else
      var rest := Split(s[1..], sep);
      if s[0] == sep then [[]] + rest else [[s[0]] + rest[0]] + rest[1..]
  }

  lemma {:induction false} SplitParts(s: string, sep: char)
    ensures Split(s, sep) != [] && forall p | p in Split(s, sep) :: sep !in p && forall c | c in p :: c in s
  {
    if s != [] { SplitParts(s[1..], sep); }
  }

  lemma {:induction false} SplitCons(a: string, b: string, sep: char)
    requires sep !in a
    ensures Split(a + [sep] + b, sep) == [a] + Split(b, sep)
  {
    var s := a + [sep] + b;
    if a == [] {
      assert s[1..] == b;
    } else {
      assert s[1..] == a[1..] + [sep] + b;
      SplitCons(a[1..], b, sep);
      assert a == [a[0]] + a[1..] && s[0] == a[0];
    }
  }

  lemma {:induction false} SplitWhole(a: string, sep: char)
    requires sep !in a
    ensures Split(a, sep) == [a]
  {
    if a != [] {
      SplitWhole(a[1..], sep);
      assert a == [a[0]] + a[1..];
    }
  }

  /** The number of parts is the number of separators plus one. */
  lemma {:induction false} SplitSize(s: string, sep: char)
    ensures |Split(s, sep)| == 1 + multiset(s)[sep]
  {
    if s != [] {
      SplitSize(s[1..], sep);
      assert s == [s[0]] + s[1..];
    }
  }

  // ----- TrimSpace -----

  function TrimLeft(s: string): string { if s != [] && IsSpace(s[0]) then TrimLeft(s[1..]) else s }

  function TrimRight(s: string): string { if s != [] && IsSpace(s[|s| - 1]) then TrimRight(s[..|s| - 1]) else s }

  function TrimSpace(s: string): string { TrimRight(TrimLeft(s)) }

  lemma TrimNothing(s: string)
    requires s != [] ==> !IsSpace(s[0]) && !IsSpace(s[|s| - 1])
    ensures TrimSpace(s) == s
  {
  }

  lemma {:induction false} TrimmedIsPart(s: string)
    ensures forall c | c in TrimSpace(s) :: c in s
  {
    TrimLeftIsPart(s);
    TrimRightIsPart(TrimLeft(s));
  }

  lemma {:induction false} TrimLeftIsPart(s: string)
    ensures forall c | c in TrimLeft(s) :: c in s
  {
    if s != [] && IsSpace(s[0]) { TrimLeftIsPart(s[1..]); }
  }

  lemma {:induction false} TrimRightIsPart(s: string)
    ensures forall c | c in TrimRight(s) :: c in s
  {
    if s != [] && IsSpace(s[|s| - 1]) { TrimRightIsPart(s[..|s| - 1]); }
  }

  predicate HasPrefix(s: string, p: string) { |p| <= |s| && s[..|p|] == p }

  // ----- Sscanf -----

  /** Skipping blanks before a verb; a newline among them is an error. */
  function SkipSpace(s: string): Option<string> {
    if s == [] || !IsSpace(s[0]) then Some(s)
    else if s[0] == '\n' then None
    else SkipSpace(s[1..])
  }

  function Token(s: string): string { if s == [] || IsSpace(s[0]) then [] else [s[0]] + Token(s[1..]) }

  lemma {:induction false} TokenWhole(s: string)
    requires NoSpace(s)
    ensures Token(s) == s
  {
    if s != [] { TokenWhole(s[1..]); }
  }

  lemma {:induction false} TokenIsPart(s: string)
    ensures NoSpace(Token(s)) && forall c | c in Token(s) :: c in s
  {
    if s != [] { TokenIsPart(s[1..]); }
  }

  /** `%s`: nothing is assigned if no text is left. */
  function ScanString(s: string): Option<string> {
    match SkipSpace(s)
    case None => None
    case Some(t) => if t == [] then None else Some(Token(t))
  }

  predicate IsDigit(c: char) { '0' <= c <= '9' }

  function Digits(s: string): string { if s == [] || !IsDigit(s[0]) then [] else [s[0]] + Digits(s[1..]) }

  function DigitValue(c: char): nat
    requires IsDigit(c)
  {
    c as int - '0' as int
  }

  function ValueOf(s: string): nat
    requires forall c | c in s :: IsDigit(c)
  {
    if s == [] then 0 else 10 * ValueOf(s[..|s| - 1]) + DigitValue(s[|s| - 1])
  }

  lemma {:induction false} DigitsAreDigits(s: string)
    ensures forall c | c in Digits(s) :: IsDigit(c)
  {
    if s != [] { DigitsAreDigits(s[1..]); }
  }

  /** `%d` into an unsigned variable below `limit`: nothing is assigned without a digit or on overflow. */
  function ScanUint(s: string, limit: nat): Option<nat> {
    match SkipSpace(s)
    case None => None
    case Some(t) =>
      DigitsAreDigits(t);
      if Digits(t) == [] || ValueOf(Digits(t)) >= limit then None else Some(ValueOf(Digits(t)))
  }

  // ----- Sprintf -----

  function DigitChar(n: nat): char
    requires n < 10
  {
    ('0' as int + n) as char
  }

  /** `%d` of an unsigned value. */
  function Decimal(n: nat): string { if n < 10 then [DigitChar(n)] else Decimal(n / 10) + [DigitChar(n % 10)] }

  lemma {:induction false} DecimalDigits(n: nat)
    ensures Decimal(n) != [] && (forall c | c in Decimal(n) :: IsDigit(c)) && ValueOf(Decimal(n)) == n
  {
    if n >= 10 {
      DecimalDigits(n / 10);
      assert Decimal(n)[..|Decimal(n)| - 1] == Decimal(n / 10);
    }
  }

  lemma {:induction false} AllDigits(s: string)
    requires forall c | c in s :: IsDigit(c)
    ensures Digits(s) == s
  {
    if s != [] { AllDigits(s[1..]); }
  }

  /** Scanning a printed number gives it back. */
  lemma ScanPrinted(n: nat, limit: nat)
    requires n < limit
    ensures ScanUint(Decimal(n), limit) == Some(n)
  {
    DecimalDigits(n);
    AllDigits(Decimal(n));
    assert IsDigit(Decimal(n)[0]);
  }

  /** Digits are neither blanks nor separators. */
  lemma PrintedIsPlain(n: nat, sep: char)
    requires !IsDigit(sep)
    ensures NoSpace(Decimal(n)) && sep !in Decimal(n) && Decimal(n) != []
  {
    DecimalDigits(n);
  }
}
