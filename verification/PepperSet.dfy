/** The configured set of peppers, `id:base64,id:base64,…`, and which active ids it can produce. */
module PepperSet {
  import opened Base
  import opened Text
  import opened Phc
  import opened PhcRoundTrip

  const MIN_PEPPER: nat := 16

  /** `SplitN(s, ":", 2)` when there are two parts. */
  function Cut(s: string): Option<(string, string)> {
    if s == [] then None
    else if s[0] == ':' then Some(([], s[1..]))
    else match Cut(s[1..])
      case None => None
      case Some((a, b)) => Some(([s[0]] + a, b))
  }

  lemma {:induction false} CutIsFirst(s: string)
    ensures match Cut(s) case None => ':' !in s case Some((a, b)) => ':' !in a && s == a + [':'] + b
  {
    if s != [] {
      CutIsFirst(s[1..]);
      assert s == [s[0]] + s[1..];
    }
  }

  /** One entry added to the map; blank entries are skipped, malformed ones are errors. */
  function AddEntry(decode: string -> Option<Bytes>, m: map<string, Bytes>, entry: string): Option<map<string, Bytes>> {
    var part := TrimSpace(entry);
    if part == "" then Some(m)
    else match Cut(part)
      case None => None
      case Some((id, b64)) =>
        match decode(TrimSpace(b64))
        case None => None
        case Some(data) => if |data| < MIN_PEPPER then None else Some(m[TrimSpace(id) := data])
  }

  function LoadAll(decode: string -> Option<Bytes>, entries: seq<string>): Option<map<string, Bytes>> {
    if entries == [] then Some(map[])
    else match LoadAll(decode, entries[..|entries| - 1])
      case None => None
      case Some(m) => AddEntry(decode, m, entries[|entries| - 1])
  }

  function Load(decode: string -> Option<Bytes>, raw: string, active: string): Option<Peppers> {
    if raw == "" || active == "" then None
    else match LoadAll(decode, Split(raw, ','))
      case None => None
      case Some(m) => if active in m then Some(Peppers(active, m)) else None
  }

  lemma {:induction false} ErrorStays(decode: string -> Option<Bytes>, entries: seq<string>, i: nat)
    requires i <= |entries| && LoadAll(decode, entries[..i]).None?
    ensures LoadAll(decode, entries).None?
    decreases |entries|
  {
    if i == |entries| {
      assert entries[..i] == entries;
    } else {
      var n := |entries| - 1;
      assert entries[..n][..i] == entries[..i];
      ErrorStays(decode, entries[..n], i);
    }
  }

  method NewStaticPepperManager(decode: string -> Option<Bytes>, raw: string, active: string) returns (r: Option<Peppers>)
    ensures r == Load(decode, raw, active)
  {
    if raw == "" || active == "" { return None; }
    var entries := Split(raw, ',');
    var peppers: map<string, Bytes> := map[];
    for i := 0 to |entries|
      invariant LoadAll(decode, entries[..i]) == Some(peppers)
    {
      assert entries[..i + 1][..i] == entries[..i];
      var part := TrimSpace(entries[i]);
      if part == "" { continue; }
      var s := Cut(part);
      if s.None? {
        ErrorStays(decode, entries, i + 1);
        return None;
      }
      var id := TrimSpace(s.value.0);
      var data := decode(TrimSpace(s.value.1));
      if data.None? || |data.value| < MIN_PEPPER {
        ErrorStays(decode, entries, i + 1);
        return None;
      }
      peppers := peppers[id := data.value];
    }
    assert entries[..|entries|] == entries;
    if active !in peppers { return None; }
    return Some(Peppers(active, peppers));
  }

  // ----- what a configuration contains -----

  /** Where the first colon is, or the length if there is none. */
  function FirstColon(s: string): nat { if s == [] || s[0] == ':' then 0 else 1 + FirstColon(s[1..]) }

  lemma {:induction false} FirstColonIsFirst(s: string)
    ensures FirstColon(s) <= |s| && (forall j | 0 <= j < FirstColon(s) :: s[j] != ':')
    ensures FirstColon(s) < |s| ==> s[FirstColon(s)] == ':'
  {
    if s != [] && s[0] != ':' {
      FirstColonIsFirst(s[1..]);
      forall j | 0 <= j < FirstColon(s) ensures s[j] != ':' {
        if j > 0 { assert s[j] == s[1..][j - 1]; }
      }
    }
  }

  /** The entry gives pepper `data` the name `id`: up to white space it reads `id:text`, split at its first colon, and the text decodes. */
  predicate Gives(decode: string -> Option<Bytes>, entry: string, id: string, data: Bytes) {
    var part := TrimSpace(entry);
    var k := FirstColon(part);
    k < |part| && TrimSpace(part[..k]) == id && decode(TrimSpace(part[k + 1..])) == Some(data) && |data| >= 16
  }

  predicate Blank(entry: string) { TrimSpace(entry) == "" }

  /** The entry names the id and gives it some pepper. */
  predicate NamesId(decode: string -> Option<Bytes>, entry: string, id: string) {
    var part := TrimSpace(entry);
    var k := FirstColon(part);
    k < |part| && TrimSpace(part[..k]) == id && decode(TrimSpace(part[k + 1..])).Some? && |decode(TrimSpace(part[k + 1..])).value| >= 16
  }

  /** The entry gives some pepper a name. */
  predicate Readable(decode: string -> Option<Bytes>, entry: string) {
    var part := TrimSpace(entry);
    var k := FirstColon(part);
    k < |part| && decode(TrimSpace(part[k + 1..])).Some? && |decode(TrimSpace(part[k + 1..])).value| >= 16
  }

  lemma {:induction false} CutAtFirstColon(s: string)
    ensures FirstColon(s) <= |s|
    ensures var k := FirstColon(s); Cut(s) == if k < |s| then Some((s[..k], s[k + 1..])) else None
  {
    if s != [] && s[0] != ':' {
      CutAtFirstColon(s[1..]);
      var k := FirstColon(s[1..]);
      if k < |s| - 1 { assert [s[0]] + s[1..][..k] == s[..k + 1] && s[1..][k + 1..] == s[k + 2..]; }
    }
  }

  /** What one entry adds. */
  lemma EntryAdds(decode: string -> Option<Bytes>, m: map<string, Bytes>, entry: string)
    ensures Blank(entry) ==> AddEntry(decode, m, entry) == Some(m)
    ensures !Blank(entry) ==> (AddEntry(decode, m, entry).Some? <==> Readable(decode, entry))
    ensures forall id, data | Gives(decode, entry, id, data) :: AddEntry(decode, m, entry) == Some(m[id := data])
    ensures Readable(decode, entry) ==> exists id, data :: Gives(decode, entry, id, data)
  {
    var part := TrimSpace(entry);
    CutAtFirstColon(part);
    FirstColonIsFirst(part);
    if Readable(decode, entry) {
      var k := FirstColon(part);
      assert Gives(decode, entry, TrimSpace(part[..k]), decode(TrimSpace(part[k + 1..])).value);
    }
  }

  /** Every entry is blank or gives a pepper. */
  predicate AllReadable(decode: string -> Option<Bytes>, entries: seq<string>) {
    entries != [] ==>
      (Blank(entries[|entries| - 1]) || Readable(decode, entries[|entries| - 1])) && AllReadable(decode, entries[..|entries| - 1])
  }

  /** The last entry to name the id gives it this pepper. */
  predicate LastGives(decode: string -> Option<Bytes>, entries: seq<string>, id: string, data: Bytes) {
    entries != [] &&
    var e := entries[|entries| - 1];
    Gives(decode, e, id, data) || (!NamesId(decode, e, id) && LastGives(decode, entries[..|entries| - 1], id, data))
  }

  /** Some entry names the id. */
  predicate Named(decode: string -> Option<Bytes>, entries: seq<string>, id: string) {
    entries != [] && (NamesId(decode, entries[|entries| - 1], id) || Named(decode, entries[..|entries| - 1], id))
  }

  /**
   * A configuration loads exactly if every entry is blank or gives a pepper; it
   * then holds exactly the ids some entry names, each with the pepper the last
   * entry to name it gives.
   */
  lemma {:induction false} LoadedPeppers(decode: string -> Option<Bytes>, entries: seq<string>)
    ensures LoadAll(decode, entries).Some? <==> AllReadable(decode, entries)
    ensures LoadAll(decode, entries).Some? ==>
      var m := LoadAll(decode, entries).value;
      && (forall id :: id in m <==> Named(decode, entries, id))
      && (forall id, data :: (id in m && m[id] == data) <==> LastGives(decode, entries, id, data))
  {
    if entries != [] {
      var n := |entries| - 1;
      LoadedPeppers(decode, entries[..n]);
      if LoadAll(decode, entries[..n]).Some? { EntryGives(decode, LoadAll(decode, entries[..n]).value, entries[n]); }
    }
  }

  lemma EntryGives(decode: string -> Option<Bytes>, m: map<string, Bytes>, e: string)
    ensures AddEntry(decode, m, e).Some? <==> Blank(e) || Readable(decode, e)
    ensures AddEntry(decode, m, e).Some? ==>
      var m' := AddEntry(decode, m, e).value;
      && (forall id :: id in m' <==> NamesId(decode, e, id) || id in m)
      && (forall id, data :: (id in m' && m'[id] == data) <==>
            Gives(decode, e, id, data) || (!NamesId(decode, e, id) && id in m && m[id] == data))
  {
    EntryAdds(decode, m, e);
    if !Blank(e) && Readable(decode, e) {
      var x, d :| Gives(decode, e, x, d);
      assert forall id :: NamesId(decode, e, id) <==> id == x;
      assert forall id, data :: Gives(decode, e, id, data) <==> id == x && data == d;
    } else if Blank(e) {
      assert TrimSpace(e) == "" && FirstColon(TrimSpace(e)) == 0;
      assert forall id :: !NamesId(decode, e, id);
      assert forall id, data :: !Gives(decode, e, id, data);
    }
  }

  /** A configuration is accepted exactly if both texts are given, every entry is blank or gives a pepper, and one names the active id. */
  lemma ConfigurationIff(decode: string -> Option<Bytes>, raw: string, active: string)
    ensures Load(decode, raw, active).Some? <==>
      raw != "" && active != "" && AllReadable(decode, Split(raw, ',')) && Named(decode, Split(raw, ','), active)
    ensures Load(decode, raw, active).Some? ==>
      var pm := Load(decode, raw, active).value;
      pm.active == active && forall id, data :: (id in pm.keys && pm.keys[id] == data) <==> LastGives(decode, Split(raw, ','), id, data)
  {
    LoadedPeppers(decode, Split(raw, ','));
  }

  // ----- which ids can be configured -----

  /** An id that an entry can name. */
  predicate Nameable(id: string) { ',' !in id && ':' !in id && Edged(id) }

  lemma {:induction false} TrimmedIsEdged(s: string)
    ensures Edged(TrimSpace(s))
  {
    LeftTrimmed(s);
    RightTrimmed(TrimLeft(s));
  }

  lemma {:induction false} LeftTrimmed(s: string)
    ensures TrimLeft(s) != [] ==> !IsSpace(TrimLeft(s)[0])
  {
    if s != [] && IsSpace(s[0]) { LeftTrimmed(s[1..]); }
  }

  lemma {:induction false} RightTrimmed(s: string)
    requires s != [] ==> !IsSpace(s[0])
    ensures Edged(TrimRight(s))
  {
    if s != [] && IsSpace(s[|s| - 1]) { RightTrimmed(s[..|s| - 1]); }
  }

  lemma EntryKeepsIds(decode: string -> Option<Bytes>, m: map<string, Bytes>, entry: string)
    requires ',' !in entry && AddEntry(decode, m, entry).Some?
    requires forall id | id in m :: Nameable(id) && |m[id]| >= MIN_PEPPER
    ensures var m' := AddEntry(decode, m, entry).value; forall id | id in m' :: Nameable(id) && |m'[id]| >= MIN_PEPPER
  {
    var part := TrimSpace(entry);
    TrimmedIsPart(entry);
    CutIsFirst(part);
    if Cut(part).Some? {
      var id := Cut(part).value.0;
      assert forall c | c in id :: c in part;
      TrimmedIsPart(id);
      TrimmedIsEdged(id);
    }
  }

  lemma {:induction false} LoadedIds(decode: string -> Option<Bytes>, entries: seq<string>)
    requires LoadAll(decode, entries).Some? && forall e | e in entries :: ',' !in e
    ensures var m := LoadAll(decode, entries).value; forall id | id in m :: Nameable(id) && |m[id]| >= MIN_PEPPER
  {
    if entries != [] {
      var n := |entries| - 1;
      LoadedIds(decode, entries[..n]);
      EntryKeepsIds(decode, LoadAll(decode, entries[..n]).value, entries[n]);
    }
  }

  /** For a configured active id a comma is impossible, so its hashes round-trip exactly when it has no `$` and no white space. */
  lemma ConfiguredRoundTripIff(cr: Crypto, decode: string -> Option<Bytes>, raw: string, active: string, salt: Bytes, key: Bytes, trim: bool)
    requires Sound(cr) && Load(decode, raw, active).Some?
    ensures
      var p := ActiveParams(active);
      Parse(Print(p, cr.encode(salt), cr.encode(key)), trim) == Some(Parsed(p, cr.encode(salt), cr.encode(key)))
      <==> '$' !in active && NoSpace(active)
  {
    SplitParts(raw, ',');
    LoadedIds(decode, Split(raw, ','));
    RoundTripIff(ActiveParams(active), cr.encode(salt), cr.encode(key), trim);
  }

  lemma LoadedActive(decode: string -> Option<Bytes>, raw: string, active: string)
    requires Load(decode, raw, active).Some?
    ensures active != "" && Nameable(active) && Load(decode, raw, active).value.active == active && active in Load(decode, raw, active).value.keys
  {
    SplitParts(raw, ',');
    LoadedIds(decode, Split(raw, ','));
  }

  /**
   * What becomes of the hashes made under any configured active id, for every
   * guess and every later set of peppers: with `$` in the id each is a format
   * error; otherwise the part of the id before its first white space decides.
   * The original password verifies if and only if there is no `$` and either
   * that part names a pepper that gives the same key, or it names none, all are
   * tried, and one of them gives it.
   */
  lemma ConfiguredVerifiesIff(cr: Crypto, decode: string -> Option<Bytes>, raw: string, active: string, pm': Peppers,
                              password: Bytes, guess: Bytes, salt: Bytes, tryAll: bool)
    requires Sound(cr) && Load(decode, raw, active).Some? && cr.acceptable(password)
    ensures
      var pm := Load(decode, raw, active).value;
      && pm.active in pm.keys && Hash(cr, pm, password, salt).Some?
      && var phc := Hash(cr, pm, password, salt).value;
      && Verify(cr, pm', guess, phc, tryAll) ==
         (if '$' in active then BadFormat else Checked(Accepts(cr, pm, pm', password, guess, salt, tryAll)))
      && (Verify(cr, pm', password, phc, tryAll) == Checked(true) <==>
            '$' !in active && Accepts(cr, pm, pm', password, password, salt, tryAll))
  {
    var pm := Load(decode, raw, active).value;
    LoadedActive(decode, raw, active);
    if '$' in active {
      DollarIdNeverVerifies(cr, pm, pm', password, guess, salt, tryAll);
      DollarIdNeverVerifies(cr, pm, pm', password, password, salt, tryAll);
    } else {
      SeparableVerdict(cr, pm, pm', password, guess, salt, tryAll);
      SeparableVerdict(cr, pm, pm', password, password, salt, tryAll);
    }
  }

  /** An id with white space in it, whose first part names no pepper: the password still verifies while its pepper is configured and all are tried. */
  lemma BlankIdVerifiesByTryingAll(cr: Crypto, pm: Peppers, pm': Peppers, password: Bytes, salt: Bytes, id: string)
    requires Sound(cr) && Hash(cr, pm, password, salt).Some? && Separable(pm.active) && Token(pm.active) !in pm'.keys
    requires id in pm'.keys && pm'.keys[id] == pm.keys[pm.active]
    ensures Verify(cr, pm', password, Hash(cr, pm, password, salt).value, true) == Checked(true)
  {
    SeparableVerdict(cr, pm, pm', password, password, salt, true);
    assert SameKey(cr, pm, password, password, salt, pm'.keys[id]);
  }

  // ----- such ids can be configured -----

  lemma {:induction false} CutAt(a: string, b: string)
    requires ':' !in a
    ensures Cut(a + [':'] + b) == Some((a, b))
  {
    var s := a + [':'] + b;
    if a != [] {
      assert s[1..] == a[1..] + [':'] + b;
      CutAt(a[1..], b);
      assert a == [a[0]] + a[1..];
    }
  }

  /** The configuration of one pepper loads for every nonempty nameable id, whatever else it contains. */
  lemma OnePepperLoads(decode: string -> Option<Bytes>, id: string, b64: string)
    requires id != "" && Nameable(id) && b64 != "" && ',' !in b64 && Edged(b64)
    requires decode(b64).Some? && |decode(b64).value| >= MIN_PEPPER
    ensures Load(decode, id + [':'] + b64, id) == Some(Peppers(id, map[id := decode(b64).value]))
  {
    var raw := id + [':'] + b64;
    SplitWhole(raw, ',');
    assert raw[0] == id[0] && raw[|raw| - 1] == b64[|b64| - 1];
    TrimNothing(raw);
    TrimNothing(id);
    TrimNothing(b64);
    CutAt(id, b64);
    assert [raw][..0] == [];
    assert LoadAll(decode, [raw][..0]) == Some(map[]);
    assert AddEntry(decode, map[], raw) == Some(map[id := decode(b64).value]);
  }

  /** Which ids can be active, given some well-formed pepper: the nonempty nameable ones. */
  lemma ActiveIff(decode: string -> Option<Bytes>, id: string, b64: string)
    requires b64 != "" && ',' !in b64 && Edged(b64) && decode(b64).Some? && |decode(b64).value| >= MIN_PEPPER
    ensures (exists raw :: Load(decode, raw, id).Some?) <==> id != "" && Nameable(id)
  {
    if id != "" && Nameable(id) {
      OnePepperLoads(decode, id, b64);
      assert Load(decode, id + [':'] + b64, id).Some?;
    }
    if exists raw :: Load(decode, raw, id).Some? {
      var raw :| Load(decode, raw, id).Some?;
      LoadedActive(decode, raw, id);
    }
  }

  /** Two that load and do not round-trip. */
  lemma AwkwardIdsLoad(decode: string -> Option<Bytes>, b64: string)
    requires b64 != "" && ',' !in b64 && Edged(b64) && decode(b64).Some? && |decode(b64).value| >= MIN_PEPPER
    ensures Load(decode, "a$b" + [':'] + b64, "a$b").Some? && '$' in "a$b"
    ensures Load(decode, "a b" + [':'] + b64, "a b").Some? && !NoSpace("a b") && Token("a b") == "a"
  {
    OnePepperLoads(decode, "a$b", b64);
    assert "a$b"[1] == '$';
    OnePepperLoads(decode, "a b", b64);
    assert "a b"[1] == ' ';
    assert "a b"[1..][0] == ' ';
    assert Token("a b"[1..]) == "";
  }
}
