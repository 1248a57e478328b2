/** Password strings: printing, parsing, pepper rotation and rehash on login. Argon2 and base64 are uninterpreted. */
module Phc {
  import opened Base
  import opened Text

  const MEMORY: nat := 131072
  const TIME_COST: nat := 2
  const THREADS: nat := 4
  const KEY_LEN: nat := 32
  const UINT32: nat := 0x1_0000_0000
  const UINT8: nat := 0x100

  type Byte = x: int | 0 <= x < 256
  type Bytes = seq<Byte>

  /** `argon(secret, salt, time, memory, threads, length)`; `acceptable` is the password policy. */
  datatype Crypto = Crypto(
    encode: Bytes -> string,
    decode: string -> Option<Bytes>,
    argon: (Bytes, Bytes, nat, nat, nat, nat) -> Bytes,
    acceptable: Bytes -> bool)

  /** The base64 round trip, its alphabet, and the length of Argon2's output. */
  ghost predicate Sound(cr: Crypto) {
    && (forall x :: cr.decode(cr.encode(x)) == Some(x))
    && (forall x :: '$' !in cr.encode(x))
    && (forall x, salt, t, m, p, n :: |cr.argon(x, salt, t, m, p, n)| == n)
  }

  datatype Peppers = Peppers(active: string, keys: map<string, Bytes>)

  datatype Params = Params(mem: nat, time: nat, threads: nat, pepper: string)

  const UNSET: Params := Params(0, 0, 0, "")

  function ActiveParams(active: string): Params { Params(MEMORY, TIME_COST, THREADS, active) }

  predicate InRange(p: Params) { p.mem < UINT32 && p.time < UINT32 && p.threads < UINT8 }

  // ----- printing -----

  function PrintParams(p: Params): string {
    ("m=" + Decimal(p.mem)) + [','] + (("t=" + Decimal(p.time)) + [','] + (("p=" + Decimal(p.threads)) + [','] + ("pepper=" + p.pepper)))
  }

  function Print(p: Params, salt: string, key: string): string {
    "" + ['$'] + ("argon2id" + ['$'] + ("v=19" + ['$'] + (PrintParams(p) + ['$'] + (salt + ['$'] + key))))
  }

  function Key(cr: Crypto, p: Params, password: Bytes, pepper: Bytes, salt: Bytes, n: nat): Bytes {
    cr.argon(password + pepper, salt, p.time, p.mem, p.threads, n)
  }

  /** `HashPasswordPHC` with the random salt as an argument. */
  function Hash(cr: Crypto, pm: Peppers, password: Bytes, salt: Bytes): Option<string> {
    if !cr.acceptable(password) || pm.active !in pm.keys then None
    else
      var p := ActiveParams(pm.active);
      Some(Print(p, cr.encode(salt), cr.encode(Key(cr, p, password, pm.keys[pm.active], salt, KEY_LEN))))
  }

  // ----- parsing -----

  function Or<T>(x: Option<T>, dflt: T): T { if x.Some? then x.value else dflt }

  /** One `key=value` item; what cannot be scanned leaves the variable as it was. */
  function Absorb(acc: Params, kv: string): Params {
    if HasPrefix(kv, "m=") then acc.(mem := Or(ScanUint(kv[2..], UINT32), acc.mem))
    else if HasPrefix(kv, "t=") then acc.(time := Or(ScanUint(kv[2..], UINT32), acc.time))
    else if HasPrefix(kv, "p=") then acc.(threads := Or(ScanUint(kv[2..], UINT8), acc.threads))
    else if HasPrefix(kv, "pepper=") then acc.(pepper := Or(ScanString(kv[7..]), acc.pepper))
    else acc
  }

  /** Verification trims each item first, the rehash test does not. */
  function Item(kv: string, trim: bool): string { if trim then TrimSpace(kv) else kv }

  function Fold(kvs: seq<string>, trim: bool): Params {
    if kvs == [] then UNSET else Absorb(Fold(kvs[..|kvs| - 1], trim), Item(kvs[|kvs| - 1], trim))
  }

  datatype Parsed = Parsed(params: Params, salt: string, key: string)

  function Parse(phc: string, trim: bool): Option<Parsed> {
    var parts := Split(phc, '$');
    if |parts| != 6 || parts[1] != "argon2id" then None
    else Some(Parsed(Fold(Split(parts[3], ','), trim), parts[4], parts[5]))
  }

  // ----- verification and the rehash test -----

  datatype Verdict = BadFormat | MissingParams | BadSalt | BadKey | Checked(ok: bool)

  predicate Fits(cr: Crypto, p: Params, password: Bytes, pepper: Bytes, salt: Bytes, want: Bytes) {
    Key(cr, p, password, pepper, salt, |want|) == want
  }

  function Verify(cr: Crypto, pm: Peppers, password: Bytes, phc: string, tryAll: bool): Verdict {
    match Parse(phc, true)
    case None => BadFormat
    case Some(x) =>
      var p := x.params;
      if p.mem == 0 || p.time == 0 || p.threads == 0 then MissingParams
      else if cr.decode(x.salt).None? then BadSalt
      else if cr.decode(x.key).None? then BadKey
      else
        var salt, want := cr.decode(x.salt).value, cr.decode(x.key).value;
        if p.pepper in pm.keys then Checked(Fits(cr, p, password, pm.keys[p.pepper], salt, want))
        else Checked(tryAll && exists id | id in pm.keys :: Fits(cr, p, password, pm.keys[id], salt, want))
  }

  predicate Rehash(phc: string, active: string) {
    var x := Parse(phc, false);
    x.None? || x.value.params != ActiveParams(active)
  }

  // ----- the loops -----

  method ParseParams(params: string) returns (p: Params)
    ensures p == Fold(Split(params, ','), true)
  {
    var items := Split(params, ',');
    p := UNSET;
    for i := 0 to |items|
      invariant p == Fold(items[..i], true)
    {
      assert items[..i + 1][..i] == items[..i];
      var kv := TrimSpace(items[i]);
      if HasPrefix(kv, "m=") { p := p.(mem := Or(ScanUint(kv[2..], UINT32), p.mem)); }
      else if HasPrefix(kv, "t=") { p := p.(time := Or(ScanUint(kv[2..], UINT32), p.time)); }
      else if HasPrefix(kv, "p=") { p := p.(threads := Or(ScanUint(kv[2..], UINT8), p.threads)); }
      else if HasPrefix(kv, "pepper=") { p := p.(pepper := Or(ScanString(kv[7..]), p.pepper)); }
    }
    assert items[..|items|] == items;
  }

  /** The map is iterated in an order chosen by nobody; the answer does not depend on it. */
  method TryAll(cr: Crypto, pm: Peppers, p: Params, password: Bytes, salt: Bytes, want: Bytes) returns (ok: bool)
    ensures ok <==> exists id | id in pm.keys :: Fits(cr, p, password, pm.keys[id], salt, want)
  {
    var left := pm.keys.Keys;
    while left != {}
      invariant left <= pm.keys.Keys
      invariant forall id | id in pm.keys && id !in left :: !Fits(cr, p, password, pm.keys[id], salt, want)
      decreases |left|
    {
      var id :| id in left;
      left := left - {id};
      if Fits(cr, p, password, pm.keys[id], salt, want) { return true; }
    }
    return false;
  }

  method VerifyPasswordPHC(cr: Crypto, pm: Peppers, password: Bytes, phc: string, tryAll: bool) returns (v: Verdict)
    ensures v == Verify(cr, pm, password, phc, tryAll)
  {
    var parts := Split(phc, '$');
    if |parts| != 6 || parts[1] != "argon2id" { return BadFormat; }
    var p := ParseParams(parts[3]);
    if p.mem == 0 || p.time == 0 || p.threads == 0 { return MissingParams; }
    var salt := cr.decode(parts[4]);
    if salt.None? { return BadSalt; }
    var want := cr.decode(parts[5]);
    if want.None? { return BadKey; }
    if p.pepper in pm.keys {
      return Checked(Fits(cr, p, password, pm.keys[p.pepper], salt.value, want.value));
    }
    var ok := false;
    if tryAll { ok := TryAll(cr, pm, p, password, salt.value, want.value); }
    return Checked(ok);
  }

  /** The four item names exclude each other, so a chain of alternatives and four separate tests do the same. */
  lemma OnePrefix(kv: string)
    ensures HasPrefix(kv, "m=") ==> !HasPrefix(kv, "t=") && !HasPrefix(kv, "p=") && !HasPrefix(kv, "pepper=")
    ensures HasPrefix(kv, "t=") ==> !HasPrefix(kv, "p=") && !HasPrefix(kv, "pepper=")
    ensures HasPrefix(kv, "p=") ==> !HasPrefix(kv, "pepper=")
  {
    if |kv| >= 2 { assert kv[..2][0] == kv[0] && kv[..2][1] == kv[1]; }
    if |kv| >= 7 { assert kv[..7][0] == kv[0] && kv[..7][1] == kv[1]; }
  }

  method ShouldRehash(phc: string, active: string) returns (due: bool)
    ensures due <==> Rehash(phc, active)
  {
    var parts := Split(phc, '$');
    if |parts| != 6 || parts[1] != "argon2id" { return true; }
    var items := Split(parts[3], ',');
    var p := UNSET;
    for i := 0 to |items|
      invariant p == Fold(items[..i], false)
    {
      assert items[..i + 1][..i] == items[..i];
      var kv := items[i];
      OnePrefix(kv);
      if HasPrefix(kv, "m=") { p := p.(mem := Or(ScanUint(kv[2..], UINT32), p.mem)); }
      if HasPrefix(kv, "t=") { p := p.(time := Or(ScanUint(kv[2..], UINT32), p.time)); }
      if HasPrefix(kv, "p=") { p := p.(threads := Or(ScanUint(kv[2..], UINT8), p.threads)); }
      if HasPrefix(kv, "pepper=") { p := p.(pepper := Or(ScanString(kv[7..]), p.pepper)); }
    }
    assert items[..|items|] == items;
    if p.mem != MEMORY || p.time != TIME_COST || p.threads != THREADS { return true; }
    return p.pepper != active;
  }
}
