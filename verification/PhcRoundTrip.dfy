/** Printing and parsing a password string are inverse to each other exactly for plain pepper ids, and what follows for logins. */
module PhcRoundTrip {
  import opened Base
  import opened Text
  import opened Phc

  /** No separator of the format and no white space. */
  predicate Plain(id: string) { '$' !in id && ',' !in id && NoSpace(id) }

  // ----- what parsing returns is plain -----

  lemma {:induction false} SkippedIsPart(s: string)
    ensures SkipSpace(s).Some? ==> forall c | c in SkipSpace(s).value :: c in s
  {
    if s != [] && IsSpace(s[0]) && s[0] != '\n' { SkippedIsPart(s[1..]); }
  }

  lemma ScannedIsPlain(s: string)
    requires '$' !in s && ',' !in s
    ensures ScanString(s).Some? ==> Plain(ScanString(s).value)
  {
    SkippedIsPart(s);
    if ScanString(s).Some? { TokenIsPart(SkipSpace(s).value); }
  }

  lemma AbsorbKeepsPlain(acc: Params, kv: string)
    requires Plain(acc.pepper) && '$' !in kv && ',' !in kv
    ensures Plain(Absorb(acc, kv).pepper)
  {
    if HasPrefix(kv, "pepper=") { ScannedIsPlain(kv[7..]); }
  }

  lemma {:induction false} FoldIsPlain(kvs: seq<string>, trim: bool)
    requires forall kv | kv in kvs :: '$' !in kv && ',' !in kv
    ensures Plain(Fold(kvs, trim).pepper)
  {
    if kvs != [] {
      var n := |kvs| - 1;
      FoldIsPlain(kvs[..n], trim);
      assert kvs[n] in kvs;
      TrimmedIsPart(kvs[n]);
      AbsorbKeepsPlain(Fold(kvs[..n], trim), Item(kvs[n], trim));
    }
  }

  lemma ParsedIsPlain(phc: string, trim: bool)
    requires Parse(phc, trim).Some?
    ensures Plain(Parse(phc, trim).value.params.pepper)
  {
    var parts := Split(phc, '$');
    SplitParts(phc, '$');
    assert parts[3] in parts;
    SplitParts(parts[3], ',');
    FoldIsPlain(Split(parts[3], ','), trim);
  }

  // ----- plain ids survive -----

  lemma PrintedItem(name: string, n: nat)
    requires name == "m=" || name == "t=" || name == "p="
    ensures var kv := name + Decimal(n); ',' !in kv && TrimSpace(kv) == kv && HasPrefix(kv, name) && kv[2..] == Decimal(n)
  {
    PrintedIsPlain(n, ',');
    var kv := name + Decimal(n);
    assert kv[|kv| - 1] == Decimal(n)[|Decimal(n)| - 1];
    TrimNothing(kv);
  }

  /** No white space at either end. */
  predicate Edged(id: string) { id != [] ==> !IsSpace(id[0]) && !IsSpace(id[|id| - 1]) }

  /** The ids whose hashes can be taken apart again; what is scanned of the id is its part before the first white space. */
  predicate Separable(id: string) { '$' !in id && ',' !in id && Edged(id) }

  lemma PlainIsWhole(id: string)
    requires NoSpace(id)
    ensures Edged(id) && Token(id) == id
  {
    TokenWhole(id);
  }

  lemma PrintedPepper(id: string)
    requires ',' !in id && Edged(id)
    ensures var kv := "pepper=" + id; ',' !in kv && TrimSpace(kv) == kv && HasPrefix(kv, "pepper=") && Or(ScanString(kv[7..]), "") == Token(id)
  {
    var kv := "pepper=" + id;
    assert kv[7..] == id;
    assert id != [] ==> kv[|kv| - 1] == id[|id| - 1];
    TrimNothing(kv);
  }

  function Items(p: Params): seq<string> {
    ["m=" + Decimal(p.mem), "t=" + Decimal(p.time), "p=" + Decimal(p.threads), "pepper=" + p.pepper]
  }

  lemma FoldStep(kvs: seq<string>, kv: string, trim: bool)
    ensures Fold(kvs + [kv], trim) == Absorb(Fold(kvs, trim), Item(kv, trim))
  {
    assert (kvs + [kv])[..|kvs|] == kvs;
  }

  lemma FoldFour(a: string, b: string, c: string, d: string, trim: bool)
    ensures Fold([a, b, c, d], trim) ==
            Absorb(Absorb(Absorb(Absorb(UNSET, Item(a, trim)), Item(b, trim)), Item(c, trim)), Item(d, trim))
  {
    FoldStep([], a, trim);
    FoldStep([a], b, trim);
    FoldStep([a, b], c, trim);
    FoldStep([a, b, c], d, trim);
    assert [] + [a] == [a] && [a] + [b] == [a, b] && [a, b] + [c] == [a, b, c] && [a, b, c] + [d] == [a, b, c, d];
  }

  lemma AbsorbNumbers(p: Params)
    requires InRange(p)
    ensures
      var kvs := Items(p);
      Absorb(Absorb(Absorb(UNSET, kvs[0]), kvs[1]), kvs[2]) == p.(pepper := "")
  {
    var kvs := Items(p);
    PrintedItem("m=", p.mem);
    PrintedItem("t=", p.time);
    PrintedItem("p=", p.threads);
    ScanPrinted(p.mem, UINT32);
    ScanPrinted(p.time, UINT32);
    ScanPrinted(p.threads, UINT8);
    OnePrefix(kvs[0]);
    OnePrefix(kvs[1]);
    OnePrefix(kvs[2]);
  }

  lemma FoldPrinted(p: Params, trim: bool)
    requires InRange(p) && ',' !in p.pepper && Edged(p.pepper)
    ensures Fold(Items(p), trim) == p.(pepper := Token(p.pepper))
  {
    var kvs := Items(p);
    FoldFour(kvs[0], kvs[1], kvs[2], kvs[3], trim);
    PrintedItem("m=", p.mem);
    PrintedItem("t=", p.time);
    PrintedItem("p=", p.threads);
    PrintedPepper(p.pepper);
    AbsorbNumbers(p);
    OnePrefix(kvs[3]);
  }

  lemma SplitFour(a: string, b: string, c: string, d: string, sep: char)
    requires sep !in a && sep !in b && sep !in c && sep !in d
    ensures Split(a + [sep] + (b + [sep] + (c + [sep] + d)), sep) == [a, b, c, d]
  {
    SplitWhole(d, sep);
    SplitCons(c, d, sep);
    SplitCons(b, c + [sep] + d, sep);
    SplitCons(a, b + [sep] + (c + [sep] + d), sep);
  }

  lemma SplitPrintedParams(p: Params)
    requires ',' !in p.pepper && Edged(p.pepper)
    ensures Split(PrintParams(p), ',') == Items(p)
  {
    var kvs := Items(p);
    PrintedItem("m=", p.mem);
    PrintedItem("t=", p.time);
    PrintedItem("p=", p.threads);
    PrintedPepper(p.pepper);
    SplitFour(kvs[0], kvs[1], kvs[2], kvs[3], ',');
  }

  lemma ParamsHaveNoDollar(p: Params)
    requires '$' !in p.pepper
    ensures '$' !in PrintParams(p)
  {
    PrintedIsPlain(p.mem, '$');
    PrintedIsPlain(p.time, '$');
    PrintedIsPlain(p.threads, '$');
  }

  lemma SplitPrinted(p: Params, salt: string, key: string)
    requires '$' !in p.pepper && '$' !in salt && '$' !in key
    ensures Split(Print(p, salt, key), '$') == ["", "argon2id", "v=19", PrintParams(p), salt, key]
  {
    ParamsHaveNoDollar(p);
    var ps := PrintParams(p);
    var t := ps + ['$'] + (salt + ['$'] + key);
    SplitWhole(key, '$');
    SplitCons(salt, key, '$');
    SplitCons(ps, salt + ['$'] + key, '$');
    SplitCons("v=19", t, '$');
    SplitCons("argon2id", "v=19" + ['$'] + t, '$');
    SplitCons("", "argon2id" + ['$'] + ("v=19" + ['$'] + t), '$');
  }

  /** Parsing the printed string of a separable id gives back everything but what follows the first white space of the id. */
  lemma ParsedPrinted(p: Params, salt: string, key: string, trim: bool)
    requires InRange(p) && Separable(p.pepper) && '$' !in salt && '$' !in key
    ensures Parse(Print(p, salt, key), trim) == Some(Parsed(p.(pepper := Token(p.pepper)), salt, key))
  {
    SplitPrinted(p, salt, key);
    SplitPrintedParams(p);
    FoldPrinted(p, trim);
  }

  /**
   * Parsing the printed string gives back the same parameters, id, salt and key
   * exactly when the id contains no `$`, no comma and no white space.
   */
  lemma RoundTripIff(p: Params, salt: string, key: string, trim: bool)
    requires InRange(p) && '$' !in salt && '$' !in key
    ensures Parse(Print(p, salt, key), trim) == Some(Parsed(p, salt, key)) <==> Plain(p.pepper)
  {
    if Plain(p.pepper) {
      PlainIsWhole(p.pepper);
      ParsedPrinted(p, salt, key, trim);
    } else if Parse(Print(p, salt, key), trim).Some? {
      ParsedIsPlain(Print(p, salt, key), trim);
    }
  }

  // ----- an id with a dollar sign -----

  /** The number of parts of a string put together around a separator. */
  lemma SplitAround(a: string, b: string, sep: char)
    ensures |Split(a + [sep] + b, sep)| == |Split(a, sep)| + |Split(b, sep)|
  {
    SplitSize(a + [sep] + b, sep);
    SplitSize(a, sep);
    SplitSize(b, sep);
  }

  lemma SplitMember(s: string, sep: char)
    requires sep in s
    ensures |Split(s, sep)| >= 2
  {
    SplitSize(s, sep);
    assert sep in multiset(s);
  }

  lemma DollarAddsPart(p: Params, salt: string, key: string)
    requires '$' in p.pepper
    ensures |Split(Print(p, salt, key), '$')| >= 7
  {
    var ps := PrintParams(p);
    assert ps[|ps| - |p.pepper|..] == p.pepper;
    SplitMember(ps, '$');
    var t := ps + ['$'] + (salt + ['$'] + key);
    SplitAround(salt, key, '$');
    SplitAround(ps, salt + ['$'] + key, '$');
    SplitAround("v=19", t, '$');
    SplitAround("argon2id", "v=19" + ['$'] + t, '$');
    SplitAround("", "argon2id" + ['$'] + ("v=19" + ['$'] + t), '$');
  }

  /** With `$` in the active id no stored string can be parsed: every verification of it reports a format error. */
  lemma DollarIdNeverVerifies(cr: Crypto, pm: Peppers, pm': Peppers, password: Bytes, guess: Bytes, salt: Bytes, tryAll: bool)
    requires Hash(cr, pm, password, salt).Some? && '$' in pm.active
    ensures Verify(cr, pm', guess, Hash(cr, pm, password, salt).value, tryAll) == BadFormat
  {
    var p := ActiveParams(pm.active);
    DollarAddsPart(p, cr.encode(salt), cr.encode(Key(cr, p, password, pm.keys[pm.active], salt, KEY_LEN)));
  }

  // ----- logins -----

  /** Argon2 gives the stored key for `guess` under this pepper. */
  predicate SameKey(cr: Crypto, pm: Peppers, password: Bytes, guess: Bytes, salt: Bytes, pepper: Bytes)
    requires pm.active in pm.keys
  {
    var p := ActiveParams(pm.active);
    Key(cr, p, guess, pepper, salt, KEY_LEN) == Key(cr, p, password, pm.keys[pm.active], salt, KEY_LEN)
  }

  /** Whether a guess verifies under later peppers: the scanned part of the id decides which pepper is used, and if it names none all are tried. */
  predicate Accepts(cr: Crypto, pm: Peppers, pm': Peppers, password: Bytes, guess: Bytes, salt: Bytes, tryAll: bool)
    requires pm.active in pm.keys
  {
    if Token(pm.active) in pm'.keys then SameKey(cr, pm, password, guess, salt, pm'.keys[Token(pm.active)])
    else tryAll && exists id | id in pm'.keys :: SameKey(cr, pm, password, guess, salt, pm'.keys[id])
  }

  /** The verdict on every hash made under a separable id, for every guess and every later set of peppers. */
  lemma SeparableVerdict(cr: Crypto, pm: Peppers, pm': Peppers, password: Bytes, guess: Bytes, salt: Bytes, tryAll: bool)
    requires Sound(cr) && Hash(cr, pm, password, salt).Some? && Separable(pm.active)
    ensures Verify(cr, pm', guess, Hash(cr, pm, password, salt).value, tryAll) ==
            Checked(Accepts(cr, pm, pm', password, guess, salt, tryAll))
  {
    var p := ActiveParams(pm.active);
    var key := Key(cr, p, password, pm.keys[pm.active], salt, KEY_LEN);
    ParsedPrinted(p, cr.encode(salt), cr.encode(key), true);
    var q := p.(pepper := Token(p.pepper));
    assert forall pepper: Bytes ::
        Fits(cr, q, guess, pepper, salt, key) <==> SameKey(cr, pm, password, guess, salt, pepper);
  }

  /**
   * Under any later set of peppers that keeps the id, a stored hash accepts
   * exactly the passwords with which Argon2 gives the stored key, and so the original.
   */
  lemma HashVerifies(cr: Crypto, pm: Peppers, pm': Peppers, password: Bytes, guess: Bytes, salt: Bytes, tryAll: bool)
    requires Sound(cr) && Hash(cr, pm, password, salt).Some? && Plain(pm.active)
    requires pm.active in pm'.keys && pm'.keys[pm.active] == pm.keys[pm.active]
    ensures
      var p, pepper := ActiveParams(pm.active), pm.keys[pm.active];
      Verify(cr, pm', guess, Hash(cr, pm, password, salt).value, tryAll) ==
      Checked(Key(cr, p, guess, pepper, salt, KEY_LEN) == Key(cr, p, password, pepper, salt, KEY_LEN))
    ensures Verify(cr, pm', password, Hash(cr, pm, password, salt).value, tryAll) == Checked(true)
  {
    var p := ActiveParams(pm.active);
    var key := Key(cr, p, password, pm.keys[pm.active], salt, KEY_LEN);
    RoundTripIff(p, cr.encode(salt), cr.encode(key), true);
  }

  /** A printed string is due for rehashing exactly when a parameter or the active id has changed. */
  lemma RehashIff(p: Params, salt: string, key: string, active: string)
    requires InRange(p) && Plain(p.pepper) && '$' !in salt && '$' !in key
    ensures Rehash(Print(p, salt, key), active) <==> p != ActiveParams(active)
  {
    RoundTripIff(p, salt, key, false);
  }

  /** A hash made under an id that is not plain is due for rehashing at once, and again after every rehash. */
  lemma NeverSettles(cr: Crypto, pm: Peppers, password: Bytes, salt: Bytes)
    requires Hash(cr, pm, password, salt).Some?
    ensures !Plain(pm.active) ==> Rehash(Hash(cr, pm, password, salt).value, pm.active)
  {
    var phc := Hash(cr, pm, password, salt).value;
    if Parse(phc, false).Some? { ParsedIsPlain(phc, false); }
  }

  /**
   * The rehash of a successful login settles: whatever was stored before, the
   * string now stored verifies with the same password and is due again exactly
   * when the active id has changed.
   */
  lemma RehashSettles(cr: Crypto, pm: Peppers, password: Bytes, salt: Bytes, active: string)
    requires Sound(cr) && Hash(cr, pm, password, salt).Some? && Plain(pm.active)
    ensures
      var phc := Hash(cr, pm, password, salt).value;
      Verify(cr, pm, password, phc, true) == Checked(true) && (Rehash(phc, active) <==> active != pm.active)
  {
    var p := ActiveParams(pm.active);
    HashVerifies(cr, pm, pm, password, password, salt, true);
    RehashIff(p, cr.encode(salt), cr.encode(Key(cr, p, password, pm.keys[pm.active], salt, KEY_LEN)), active);
  }
}
