/** Hashes and verdicts in terms of Argon2 itself. */
module PhcVerdict {
  import opened Base
  import opened Text
  import opened Phc
  import opened PhcRoundTrip

  // ----- the text of a hash -----

  lemma DecimalOfTwoDigits(n: nat)
    requires 10 <= n < 100
    ensures Decimal(n) == [DigitChar(n / 10), DigitChar(n % 10)]
  {
  }

  lemma MemoryText()
    ensures Decimal(131072) == "131072"
  {
    DecimalOfTwoDigits(13);
    assert Decimal(131) == Decimal(13) + [DigitChar(1)];
    assert Decimal(1310) == Decimal(131) + [DigitChar(0)];
    assert Decimal(13107) == Decimal(1310) + [DigitChar(7)];
    assert Decimal(131072) == Decimal(13107) + [DigitChar(2)];
  }

  lemma ParamsText(id: string)
    ensures PrintParams(ActiveParams(id)) == "m=131072,t=2,p=4,pepper=" + id
  {
    MemoryText();
    assert "t=" + Decimal(2) == "t=2" && "p=" + Decimal(4) == "p=4";
    TailText(id);
    var c := "t=2,p=4,pepper=" + id;
    assert ("m=" + Decimal(131072)) + [','] + c == "m=131072,t=2,p=4,pepper=" + id;
  }

  lemma TailText(id: string)
    ensures "t=2" + [','] + ("p=4" + [','] + ("pepper=" + id)) == "t=2,p=4,pepper=" + id
  {
    assert "p=4" + [','] + ("pepper=" + id) == "p=4,pepper=" + id;
  }

  /**
   * A password is hashed if the policy admits it and the active pepper exists,
   * into the text the format prescribes, part by part, with password and pepper
   * as Argon2's secret.
   */
  lemma HashText(cr: Crypto, pm: Peppers, password: Bytes, salt: Bytes)
    ensures Hash(cr, pm, password, salt).Some? <==> cr.acceptable(password) && pm.active in pm.keys
    ensures Hash(cr, pm, password, salt).Some? ==>
      var key := cr.argon(password + pm.keys[pm.active], salt, 2, 131072, 4, 32);
      Hash(cr, pm, password, salt).value ==
      "" + ['$'] + ("argon2id" + ['$'] + ("v=19" + ['$'] + (("m=131072,t=2,p=4,pepper=" + pm.active) + ['$'] + (cr.encode(salt) + ['$'] + cr.encode(key)))))
  {
    ParamsText(pm.active);
  }

  // ----- the verdict on any string of the format -----

  /** Argon2 on guess and pepper gives `want`. */
  predicate Derives(cr: Crypto, p: Params, guess: Bytes, pepper: Bytes, salt: Bytes, want: Bytes) {
    cr.argon(guess + pepper, salt, p.time, p.mem, p.threads, |want|) == want
  }

  /**
   * Every printed string, with any parameters, salt and key texts: which error
   * it gives, and otherwise which guesses it accepts. The part of the id before
   * its first white space selects the pepper.
   */
  lemma PrintedVerdict(cr: Crypto, pm: Peppers, p: Params, salt: string, key: string, guess: Bytes, tryAll: bool)
    requires InRange(p) && Separable(p.pepper) && '$' !in salt && '$' !in key
    ensures
      var v, id := Verify(cr, pm, guess, Print(p, salt, key), tryAll), Token(p.pepper);
      if p.mem == 0 || p.time == 0 || p.threads == 0 then v == MissingParams
      else if cr.decode(salt) == None then v == BadSalt
      else if cr.decode(key) == None then v == BadKey
      else
        var s, want := cr.decode(salt).value, cr.decode(key).value;
        v == Checked(if id in pm.keys then Derives(cr, p, guess, pm.keys[id], s, want)
                     else tryAll && exists x | x in pm.keys :: Derives(cr, p, guess, pm.keys[x], s, want))
  {
    ParsedPrinted(p, salt, key, true);
    var q := p.(pepper := Token(p.pepper));
    if cr.decode(salt).Some? && cr.decode(key).Some? {
      var s, want := cr.decode(salt).value, cr.decode(key).value;
      assert forall x | x in pm.keys :: Fits(cr, q, guess, pm.keys[x], s, want) <==> Derives(cr, p, guess, pm.keys[x], s, want);
    }
  }

  /** What is not six parts with the right algorithm name verifies nothing and is due for rehashing. */
  lemma ForeignString(cr: Crypto, pm: Peppers, parts: seq<string>, phc: string, guess: Bytes, tryAll: bool)
    requires Split(phc, '$') == parts && (|parts| != 6 || parts[1] != "argon2id")
    ensures Verify(cr, pm, guess, phc, tryAll) == BadFormat && Rehash(phc, pm.active)
  {
  }

  // ----- the verdict on a hash -----

  /**
   * A hash accepts a guess if and only if Argon2 derives the same key from the
   * guess with the selected pepper as it did from the password with the pepper
   * that was active.
   */
  lemma HashVerdict(cr: Crypto, pm: Peppers, pm': Peppers, password: Bytes, guess: Bytes, salt: Bytes, tryAll: bool)
    requires Sound(cr) && Hash(cr, pm, password, salt).Some? && Separable(pm.active)
    ensures
      var id, key := Token(pm.active), cr.argon(password + pm.keys[pm.active], salt, 2, 131072, 4, 32);
      Verify(cr, pm', guess, Hash(cr, pm, password, salt).value, tryAll) ==
      Checked(if id in pm'.keys then cr.argon(guess + pm'.keys[id], salt, 2, 131072, 4, 32) == key
              else tryAll && exists x | x in pm'.keys :: cr.argon(guess + pm'.keys[x], salt, 2, 131072, 4, 32) == key)
  {
    var p, key := ActiveParams(pm.active), cr.argon(password + pm.keys[pm.active], salt, 2, 131072, 4, 32);
    assert |key| == 32;
    PrintedVerdict(cr, pm', p, cr.encode(salt), cr.encode(key), guess, tryAll);
    assert Hash(cr, pm, password, salt).value == Print(p, cr.encode(salt), cr.encode(key));
    assert forall x | x in pm'.keys ::
        Derives(cr, p, guess, pm'.keys[x], salt, key) <==> cr.argon(guess + pm'.keys[x], salt, 2, 131072, 4, 32) == key;
  }

  /** Different secrets give different keys. */
  ghost predicate NoCollisions(cr: Crypto, salt: Bytes) {
    forall x, y :: cr.argon(x, salt, 2, 131072, 4, 32) == cr.argon(y, salt, 2, 131072, 4, 32) ==> x == y
  }

  /** Then a hash accepts its own password and no other, under every later set of peppers that keeps the id. */
  lemma OnlyItsOwnPassword(cr: Crypto, pm: Peppers, pm': Peppers, password: Bytes, guess: Bytes, salt: Bytes, tryAll: bool)
    requires Sound(cr) && NoCollisions(cr, salt) && Hash(cr, pm, password, salt).Some? && Plain(pm.active)
    requires pm.active in pm'.keys && pm'.keys[pm.active] == pm.keys[pm.active]
    ensures Verify(cr, pm', guess, Hash(cr, pm, password, salt).value, tryAll) == Checked(guess == password)
  {
    PlainIsWhole(pm.active);
    HashVerdict(cr, pm, pm', password, guess, salt, tryAll);
    var pepper := pm.keys[pm.active];
    if guess + pepper == password + pepper {
      assert guess == (guess + pepper)[..|guess + pepper| - |pepper|];
      assert password == (password + pepper)[..|password + pepper| - |pepper|];
    }
  }

  // ----- items out of the ordinary -----

  /** A later item overrides an earlier one, an unreadable or overflowing number changes nothing, and neither does an unknown item. */
  lemma LaterItems(kvs: seq<string>, n: nat, trim: bool)
    ensures n < UINT32 ==> Fold(kvs + ["m=" + Decimal(n)], trim) == Fold(kvs, trim).(mem := n)
    ensures n < UINT32 ==> Fold(kvs + ["t=" + Decimal(n)], trim) == Fold(kvs, trim).(time := n)
    ensures n < UINT8 ==> Fold(kvs + ["p=" + Decimal(n)], trim) == Fold(kvs, trim).(threads := n)
    ensures n >= UINT32 ==> Fold(kvs + ["m=" + Decimal(n)], trim) == Fold(kvs, trim) == Fold(kvs + ["t=" + Decimal(n)], trim)
    ensures n >= UINT8 ==> Fold(kvs + ["p=" + Decimal(n)], trim) == Fold(kvs, trim)
  {
    FoldStep(kvs, "m=" + Decimal(n), trim);
    FoldStep(kvs, "t=" + Decimal(n), trim);
    FoldStep(kvs, "p=" + Decimal(n), trim);
    PrintedItem("m=", n);
    PrintedItem("t=", n);
    PrintedItem("p=", n);
    OnePrefix("m=" + Decimal(n));
    OnePrefix("t=" + Decimal(n));
    OnePrefix("p=" + Decimal(n));
    ScanPrintedIff(n, UINT32);
    ScanPrintedIff(n, UINT8);
  }

  lemma ScanPrintedIff(n: nat, limit: nat)
    ensures ScanUint(Decimal(n), limit) == if n < limit then Some(n) else None
  {
    DecimalDigits(n);
    AllDigits(Decimal(n));
    assert IsDigit(Decimal(n)[0]);
  }

  /** Verification reads an item after a blank, the rehash test does not. */
  lemma ItemAfterBlank(kvs: seq<string>, n: nat)
    requires n < UINT32
    ensures Fold(kvs + [" m=" + Decimal(n)], true) == Fold(kvs, true).(mem := n)
    ensures Fold(kvs + [" m=" + Decimal(n)], false) == Fold(kvs, false)
  {
    var kv := " m=" + Decimal(n);
    FoldStep(kvs, kv, true);
    FoldStep(kvs, kv, false);
    BlankTrimmed("m=" + Decimal(n));
    BlankUnread(Fold(kvs, false), "m=" + Decimal(n));
    PrintedItem("m=", n);
    assert kv == " " + ("m=" + Decimal(n));
    ScanPrintedIff(n, UINT32);
    OnePrefix("m=" + Decimal(n));
  }

  lemma BlankTrimmed(s: string)
    ensures TrimSpace(" " + s) == TrimSpace(s)
  {
    assert (" " + s)[0] == ' ' && (" " + s)[1..] == s;
  }

  lemma BlankUnread(acc: Params, s: string)
    ensures Absorb(acc, " " + s) == acc
  {
    var kv := " " + s;
    assert kv[0] == ' ';
    if |kv| >= 2 { assert kv[..2][0] == ' '; }
    if |kv| >= 7 { assert kv[..7][0] == ' '; }
  }
}
