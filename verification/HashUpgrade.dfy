/** The transparent rehash of a successful password login, and what it does to later logins. */
module HashUpgrade {
  import opened Base
  import opened Text
  import opened Phc
  import opened PhcRoundTrip
  import opened PepperSet

  /** The login replaces the stored string: it is due, the new one could be made, and the update took effect. */
  predicate Replaces(cr: Crypto, pm: Peppers, phc: string, password: Bytes, salt: Bytes, w: Write) {
    Rehash(phc, pm.active) && Hash(cr, pm, password, salt).Some? && w.Took()
  }

  function Upgraded(cr: Crypto, pm: Peppers, phc: string, password: Bytes, salt: Bytes, w: Write): string {
    if Replaces(cr, pm, phc, password, salt, w) then Hash(cr, pm, password, salt).value else phc
  }

  /** The `password_hash` column of one identity. */
  class StoredHash {
    var phc: string

    constructor (initial: string)
      ensures phc == initial
    {
      phc := initial;
    }

    /** The end of `Login`: every failure on the way leaves the column alone and does not stop the login. */
    method Upgrade(cr: Crypto, pm: Peppers, password: Bytes, salt: Bytes, w: Write)
      modifies this
      ensures phc == Upgraded(cr, pm, old(phc), password, salt, w)
    {
      var due := ShouldRehash(phc, pm.active);
      if due {
        var made := Hash(cr, pm, password, salt);
        if made.Some? && w.Took() { phc := made.value; }
      }
    }
  }

  /** The part of the active id that is scanned again names the active pepper itself, or one that gives the same key, or none. */
  predicate ScansToOwnKey(cr: Crypto, pm: Peppers, password: Bytes, salt: Bytes)
    requires pm.active in pm.keys
  {
    Token(pm.active) in pm.keys ==> SameKey(cr, pm, password, password, salt, pm.keys[Token(pm.active)])
  }

  /**
   * After a login that verified the password, under any configured peppers: the
   * same password verifies again if and only if the string was left alone, or
   * the active id has no `$` and scans to its own key. So the rehash can lock
   * the account out, and exactly then.
   */
  lemma UpgradeVerifiesIff(cr: Crypto, decode: string -> Option<Bytes>, raw: string, active: string,
                           phc: string, password: Bytes, salt: Bytes, w: Write)
    requires Sound(cr) && Load(decode, raw, active).Some?
    requires Verify(cr, Load(decode, raw, active).value, password, phc, true) == Checked(true)
    ensures
      var pm := Load(decode, raw, active).value;
      && pm.active in pm.keys
      && (Verify(cr, pm, password, Upgraded(cr, pm, phc, password, salt, w), true) == Checked(true) <==>
            Replaces(cr, pm, phc, password, salt, w) ==> '$' !in active && ScansToOwnKey(cr, pm, password, salt))
  {
    var pm := Load(decode, raw, active).value;
    LoadedActive(decode, raw, active);
    if Replaces(cr, pm, phc, password, salt, w) {
      ConfiguredVerifiesIff(cr, decode, raw, active, pm, password, password, salt, true);
      assert SameKey(cr, pm, password, password, salt, pm.keys[active]);
    }
  }

  /** For a plain active id a replaced string stays: no later login under the same peppers replaces it again. */
  lemma UpgradeSettles(cr: Crypto, pm: Peppers, phc: string, password: Bytes, salt: Bytes, w: Write, salt': Bytes, w': Write)
    requires Sound(cr) && Plain(pm.active) && Replaces(cr, pm, phc, password, salt, w)
    ensures
      var once := Upgraded(cr, pm, phc, password, salt, w);
      Verify(cr, pm, password, once, true) == Checked(true) && Upgraded(cr, pm, once, password, salt', w') == once
  {
    RehashSettles(cr, pm, password, salt, pm.active);
  }

  /** For any other active id every such login replaces the string once more. */
  lemma UpgradeNeverSettles(cr: Crypto, pm: Peppers, phc: string, password: Bytes, salt: Bytes, w: Write, salt': Bytes, w': Write)
    requires !Plain(pm.active) && Replaces(cr, pm, phc, password, salt, w) && w'.Took()
    ensures Replaces(cr, pm, Upgraded(cr, pm, phc, password, salt, w), password, salt', w')
  {
    NeverSettles(cr, pm, password, salt);
  }

  /** A configuration of one pepper whose id has white space in it: its hashes verify only by trying all peppers, and are always due. */
  lemma BlankIdInUse(cr: Crypto, decode: string -> Option<Bytes>, id: string, b64: string, password: Bytes, salt: Bytes)
    requires Sound(cr) && cr.acceptable(password) && id != "" && Nameable(id) && '$' !in id && !NoSpace(id)
    requires b64 != "" && ',' !in b64 && Edged(b64) && decode(b64).Some? && |decode(b64).value| >= MIN_PEPPER
    ensures Load(decode, id + [':'] + b64, id).Some?
    ensures
      var pm := Load(decode, id + [':'] + b64, id).value;
      && Hash(cr, pm, password, salt).Some?
      && var phc := Hash(cr, pm, password, salt).value;
      && Verify(cr, pm, password, phc, true) == Checked(true)
      && Verify(cr, pm, password, phc, false) == Checked(false)
      && Rehash(phc, id)
  {
    OnePepperLoads(decode, id, b64);
    TokenIsPart(id);
    var pm := Load(decode, id + [':'] + b64, id).value;
    BlankIdVerifiesByTryingAll(cr, pm, pm, password, salt, id);
    SeparableVerdict(cr, pm, pm, password, password, salt, false);
    NeverSettles(cr, pm, password, salt);
  }
}
