/** How credentials are named, how calls wear them out, and what calls append to the login log. */
module MfaRuns {
  import opened Base
  import opened Mfa
  import OneTimeCode
  import Totp

  // ----- credentials -----

  /** The credential can still be recognised in this state. */
  predicate Unspent(s: State, x: Credential) {
    match x
    case TotpStep(secret, step) =>
      exists k | k in s.factors :: k.kind == TotpKind && s.factors[k].secret == secret && LastStepOf(s.factors[k]) < step
    case EmailCode(serial) => exists u | u in s.emailed :: s.emailed[u].serial == serial
    case RecoveryCode(id) => exists h | h in s.recovery :: s.recovery[h].id == id && !s.recovery[h].used
  }

  // ----- names of credentials -----

  /** Secrets are named from the supply and no two factors share one; likewise below for the other stores. */
  ghost predicate FactorNames(m: map<Key, Factor>, n: nat) {
    && (forall k | k in m :: m[k].secret < n)
    && (forall a, b | a in m && b in m && m[a].secret == m[b].secret :: a == b)
  }

  ghost predicate EmailNames(m: map<UserId, Emailed>, n: nat) {
    && (forall u | u in m :: m[u].serial < n)
    && (forall u, v | u in m && v in m && m[u].serial == m[v].serial :: u == v)
  }

  ghost predicate RecoveryNames(m: map<Hash, Recovery>, n: nat) {
    && (forall h | h in m :: m[h].id < n)
    && (forall g, h | g in m && h in m && m[g].id == m[h].id :: g == h)
  }

  ghost predicate ChallengeNames(m: map<nat, Challenge>, n: nat) { forall c | c in m :: c < n }

  ghost predicate Names(s: State) {
    FactorNames(s.factors, s.next) && EmailNames(s.emailed, s.next) && RecoveryNames(s.recovery, s.next) && ChallengeNames(s.challenges, s.next)
  }

  /** Credentials only wear out: steps grow, used rows stay used, and whatever is new has a name of at least `n`. */
  ghost predicate FactorsWear(m: map<Key, Factor>, m': map<Key, Factor>, n: nat) {
    forall k | k in m' :: m'[k].secret >= n || (k in m && m'[k].secret == m[k].secret && LastStepOf(m'[k]) >= LastStepOf(m[k]))
  }

  ghost predicate EmailsWear(m: map<UserId, Emailed>, m': map<UserId, Emailed>, n: nat) {
    forall u | u in m' :: m'[u].serial >= n || (u in m && m'[u].serial == m[u].serial)
  }

  ghost predicate RecoveryWears(m: map<Hash, Recovery>, m': map<Hash, Recovery>, n: nat) {
    forall h | h in m' :: m'[h].id >= n || (h in m && m'[h].id == m[h].id && (m[h].used ==> m'[h].used))
  }

  ghost predicate ChallengesWear(m: map<nat, Challenge>, m': map<nat, Challenge>, n: nat) {
    forall c | c in m' :: c >= n || (c in m && m'[c] == m[c])
  }

  ghost predicate Evolves(s: State, s': State) {
    && s.next <= s'.next
    && FactorsWear(s.factors, s'.factors, s.next) && EmailsWear(s.emailed, s'.emailed, s.next)
    && RecoveryWears(s.recovery, s'.recovery, s.next) && ChallengesWear(s.challenges, s'.challenges, s.next)
  }

  // ----- one store at a time -----

  lemma SameFactors(m: map<Key, Factor>, n: nat, n': nat)
    requires FactorNames(m, n) && n <= n'
    ensures FactorNames(m, n') && FactorsWear(m, m, n)
  {
  }

  lemma SameEmails(m: map<UserId, Emailed>, n: nat, n': nat)
    requires EmailNames(m, n) && n <= n'
    ensures EmailNames(m, n') && EmailsWear(m, m, n)
  {
  }

  lemma SameRecovery(m: map<Hash, Recovery>, n: nat, n': nat)
    requires RecoveryNames(m, n) && n <= n'
    ensures RecoveryNames(m, n') && RecoveryWears(m, m, n)
  {
  }

  lemma SameChallenges(m: map<nat, Challenge>, n: nat, n': nat)
    requires ChallengeNames(m, n) && n <= n'
    ensures ChallengeNames(m, n') && ChallengesWear(m, m, n)
  {
  }

  /** What a call leaves alone stays as it was. */
  lemma Untouched(s: State, s': State)
    requires Names(s) && s.next <= s'.next
    ensures s'.factors == s.factors ==> FactorNames(s'.factors, s'.next) && FactorsWear(s.factors, s'.factors, s.next)
    ensures s'.emailed == s.emailed ==> EmailNames(s'.emailed, s'.next) && EmailsWear(s.emailed, s'.emailed, s.next)
    ensures s'.recovery == s.recovery ==> RecoveryNames(s'.recovery, s'.next) && RecoveryWears(s.recovery, s'.recovery, s.next)
    ensures s'.challenges == s.challenges ==> ChallengeNames(s'.challenges, s'.next) && ChallengesWear(s.challenges, s'.challenges, s.next)
  {
    SameFactors(s.factors, s.next, s'.next);
    SameEmails(s.emailed, s.next, s'.next);
    SameRecovery(s.recovery, s.next, s'.next);
    SameChallenges(s.challenges, s.next, s'.next);
  }

  /** Writing one factor row: same secret and a step no lower, or a secret from the supply. */
  lemma PutFactor(m: map<Key, Factor>, k: Key, f: Factor, n: nat, n': nat)
    requires FactorNames(m, n) && n <= n' && f.secret < n'
    requires f.secret >= n || (k in m && f.secret == m[k].secret && LastStepOf(f) >= LastStepOf(m[k]))
    ensures FactorNames(m[k := f], n') && FactorsWear(m, m[k := f], n)
  {
    var m' := m[k := f];
    forall a, b | a in m' && b in m' && m'[a].secret == m'[b].secret ensures a == b {
    }
  }

  lemma DropFactor(m: map<Key, Factor>, k: Key, n: nat)
    requires FactorNames(m, n)
    ensures FactorNames(m - {k}, n) && FactorsWear(m, m - {k}, n)
  {
  }

  lemma PutEmailed(m: map<UserId, Emailed>, u: UserId, e: Emailed, n: nat, n': nat)
    requires EmailNames(m, n) && n <= n' && e.serial < n'
    requires e.serial >= n || (u in m && e.serial == m[u].serial)
    ensures EmailNames(m[u := e], n') && EmailsWear(m, m[u := e], n)
  {
  }

  lemma DropEmailed(m: map<UserId, Emailed>, u: UserId, n: nat)
    requires EmailNames(m, n)
    ensures EmailNames(m - {u}, n) && EmailsWear(m, m - {u}, n)
  {
  }

  lemma MarkRecovery(m: map<Hash, Recovery>, h: Hash, n: nat)
    requires RecoveryNames(m, n) && h in m
    ensures RecoveryNames(m[h := m[h].(used := true)], n) && RecoveryWears(m, m[h := m[h].(used := true)], n)
  {
  }

  lemma DropRecovery(m: map<Hash, Recovery>, factor: nat, n: nat)
    requires RecoveryNames(m, n)
    ensures RecoveryNames(DeleteCodes(m, factor), n) && RecoveryWears(m, DeleteCodes(m, factor), n)
  {
  }

  lemma {:induction false} InsertRecovery(m: map<Hash, Recovery>, factor: nat, hashes: seq<Hash>, n: nat)
    requires InsertCodes(m, factor, hashes, n).Some? && RecoveryNames(m, n)
    ensures var m' := InsertCodes(m, factor, hashes, n).value; RecoveryNames(m', n + |hashes|) && RecoveryWears(m, m', n)
  {
    if hashes != [] { InsertRecovery(m, factor, hashes[..|hashes| - 1], n); }
  }

  // ----- one call -----

  lemma FactorsAfterWear(s: State, u: UserId, cred: Option<Credential>)
    requires FactorNames(s.factors, s.next)
    requires cred.Some? && cred.value.TotpStep? ==> Key(u, TotpKind) in s.factors && LastStepOf(s.factors[Key(u, TotpKind)]) < cred.value.step
    ensures FactorNames(FactorsAfter(s, u, cred), s.next) && FactorsWear(s.factors, FactorsAfter(s, u, cred), s.next)
  {
    var k := Key(u, TotpKind);
    SameFactors(s.factors, s.next, s.next);
    if cred.Some? && cred.value.TotpStep? {
      PutFactor(s.factors, k, s.factors[k].(lastStep := Some(cred.value.step)), s.next, s.next);
    }
  }

  lemma EmailedAfterWear(env: Env, s: State, u: UserId, requested: Option<Kind>, code: string, f: VerifyFaults)
    requires EmailNames(s.emailed, s.next)
    ensures EmailNames(EmailedAfter(env, s, u, requested, code, f), s.next) && EmailsWear(s.emailed, EmailedAfter(env, s, u, requested, code, f), s.next)
  {
    SameEmails(s.emailed, s.next, s.next);
    if ChecksEmail(env, s, u, requested, code, f) {
      DropEmailed(s.emailed, u, s.next);
      PutEmailed(s.emailed, u, s.emailed[u].(slot := OneTimeCode.Guess(s.emailed[u].slot, s.clock, OTP_TTL, code, true)), s.next, s.next);
    }
  }

  lemma RecoveryAfterWears(s: State, h: Hash, cred: Option<Credential>)
    requires RecoveryNames(s.recovery, s.next)
    ensures RecoveryNames(RecoveryAfter(s, h, cred), s.next) && RecoveryWears(s.recovery, RecoveryAfter(s, h, cred), s.next)
  {
    SameRecovery(s.recovery, s.next, s.next);
    if h in s.recovery { MarkRecovery(s.recovery, h, s.next); }
  }

  lemma DropChallenge(m: map<nat, Challenge>, c: nat, n: nat)
    requires ChallengeNames(m, n)
    ensures ChallengeNames(m - {c}, n) && ChallengesWear(m, m - {c}, n)
  {
  }

  lemma PutChallenge(m: map<nat, Challenge>, ch: Challenge, n: nat)
    requires ChallengeNames(m, n)
    ensures ChallengeNames(m[n := ch], n + 1) && ChallengesWear(m, m[n := ch], n)
  {
  }

  lemma VerifyFields(env: Env, s: State, c: nat, requested: Option<Kind>, code: string, f: VerifyFaults)
    requires VerifyVerdict(env, s, c, requested, code, f).Proceeds()
    ensures
      var s', u := Verify(env, s, c, requested, code, f), s.challenges[c].user;
      var cred := Recognise(env, s, u, requested, code, f);
      && s'.next == s.next
      && s'.factors == FactorsAfter(s, u, cred) && s'.emailed == EmailedAfter(env, s, u, requested, code, f)
      && s'.recovery == RecoveryAfter(s, env.hash(code), cred)
      && (s'.challenges == s.challenges || s'.challenges == s.challenges - {c})
      && (cred.Some? && cred.value.TotpStep? ==>
            Key(u, TotpKind) in s.factors && LastStepOf(s.factors[Key(u, TotpKind)]) < cred.value.step)
  {
  }

  lemma VerifyEvolves(env: Env, s: State, c: nat, requested: Option<Kind>, code: string, f: VerifyFaults)
    requires Names(s)
    ensures Names(Verify(env, s, c, requested, code, f)) && Evolves(s, Verify(env, s, c, requested, code, f))
  {
    var s' := Verify(env, s, c, requested, code, f);
    if VerifyVerdict(env, s, c, requested, code, f).Proceeds() {
      VerifyFields(env, s, c, requested, code, f);
      var u := s.challenges[c].user;
      AttemptEvolves(env, s, s', c, u, requested, code, f, Recognise(env, s, u, requested, code, f));
    } else {
      Untouched(s, s);
    }
  }

  lemma AttemptEvolves(env: Env, s: State, s': State, c: nat, u: UserId, requested: Option<Kind>, code: string, f: VerifyFaults, cred: Option<Credential>)
    requires Names(s) && s'.next == s.next
    requires s'.factors == FactorsAfter(s, u, cred) && s'.emailed == EmailedAfter(env, s, u, requested, code, f)
    requires s'.recovery == RecoveryAfter(s, env.hash(code), cred)
    requires s'.challenges == s.challenges || s'.challenges == s.challenges - {c}
    requires cred.Some? && cred.value.TotpStep? ==>
               Key(u, TotpKind) in s.factors && LastStepOf(s.factors[Key(u, TotpKind)]) < cred.value.step
    ensures Names(s') && Evolves(s, s')
  {
    FactorsAfterWear(s, u, cred);
    EmailedAfterWear(env, s, u, requested, code, f);
    RecoveryAfterWears(s, env.hash(code), cred);
    SameChallenges(s.challenges, s.next, s.next);
    DropChallenge(s.challenges, c, s.next);
  }

  lemma EnrollEvolves(s: State, k: Key, w: Write)
    requires Names(s)
    ensures Names(Enroll(s, k, w)) && Evolves(s, Enroll(s, k, w))
  {
    var s' := Enroll(s, k, w);
    if s'.factors == s.factors {
      Untouched(s, s');
    } else {
      PutFactor(s.factors, k, Pending(s, k), s.next, s.next + 2);
      OnlyFactors(s, s');
    }
  }

  lemma OnlyFactors(s: State, s': State)
    requires Names(s) && s.next <= s'.next && s'.emailed == s.emailed && s'.recovery == s.recovery && s'.challenges == s.challenges
    requires FactorNames(s'.factors, s'.next) && FactorsWear(s.factors, s'.factors, s.next)
    ensures Names(s') && Evolves(s, s')
  {
    Untouched(s, s');
  }

  lemma OnlyChallenges(s: State, s': State)
    requires Names(s) && s.next <= s'.next && s'.emailed == s.emailed && s'.recovery == s.recovery && s'.factors == s.factors
    requires ChallengeNames(s'.challenges, s'.next) && ChallengesWear(s.challenges, s'.challenges, s.next)
    ensures Names(s') && Evolves(s, s')
  {
    Untouched(s, s');
  }

  lemma RecoveryReplaced(m: map<Hash, Recovery>, factor: nat, hashes: seq<Hash>, n: nat)
    requires InsertCodes(DeleteCodes(m, factor), factor, hashes, n).Some? && RecoveryNames(m, n)
    ensures
      var m' := InsertCodes(DeleteCodes(m, factor), factor, hashes, n).value;
      RecoveryNames(m', n + |hashes|) && RecoveryWears(m, m', n)
  {
    DropRecovery(m, factor, n);
    InsertRecovery(DeleteCodes(m, factor), factor, hashes, n);
  }

  lemma CompleteEvolves(s: State, k: Key, step: Option<int>, hashes: seq<Hash>, tx: Tx)
    requires Names(s) && k in s.factors && (step.Some? ==> step.value > LastStepOf(s.factors[k]))
    ensures Names(Complete(s, k, step, hashes, tx)) && Evolves(s, Complete(s, k, step, hashes, tx))
  {
    var f := s.factors[k];
    Untouched(s, Complete(s, k, step, hashes, tx));
    PutFactor(s.factors, k, f.(verified := true, enabled := true, lastStep := if step.Some? then step else f.lastStep), s.next, s.next + |hashes|);
    if InsertCodes(DeleteCodes(s.recovery, f.id), f.id, hashes, s.next).Some? { RecoveryReplaced(s.recovery, f.id, hashes, s.next); }
  }

  lemma ConfirmEvolves(env: Env, s: State, c: Call)
    requires Names(s) && (c.CConfirmTotp? || c.CConfirmEmail?)
    ensures Names(Apply(env, s, c)) && Evolves(s, Apply(env, s, c))
  {
    var k := Key(c.user, if c.CConfirmTotp? then TotpKind else EmailKind);
    Untouched(s, s);
    if k in s.factors {
      var step := if c.CConfirmTotp? then Totp.Accept(env.gen, s.factors[k].secret, c.code, LastStepOf(s.factors[k]), s.clock) else None;
      CompleteEvolves(s, k, step, c.hashes, c.tx);
    }
  }

  lemma RemoveEvolves(s: State, k: Key)
    requires Names(s)
    ensures Names(Remove(s, k)) && Evolves(s, Remove(s, k))
  {
    Untouched(s, s);
    if k in s.factors {
      DropFactor(s.factors, k, s.next);
      DropRecovery(s.recovery, s.factors[k].id, s.next);
    }
  }

  lemma ChallengedEvolves(s: State, u: UserId, w: Write)
    requires Names(s)
    ensures Names(Challenged(s, u, w)) && Evolves(s, Challenged(s, u, w))
  {
    var s' := Challenged(s, u, w);
    if w.Took() {
      PutChallenge(s.challenges, Challenge(u, s.clock + CHALLENGE_TTL), s.next);
      OnlyChallenges(s, s');
    } else {
      Untouched(s, s');
    }
  }

  lemma LoginEvolves(s: State, u: UserId, passwordOk: bool, f: LoginFaults)
    requires Names(s)
    ensures Names(Login(s, u, passwordOk, f)) && Evolves(s, Login(s, u, passwordOk, f))
  {
    var v := LoginVerdict(s, u, passwordOk, f);
    if v.MfaRequired? || v.ChallengeFailed? { ChallengedEvolves(s, u, f.challenge); } else { Untouched(s, Login(s, u, passwordOk, f)); }
  }

  lemma SendEvolves(s: State, c: nat, code: string)
    requires Names(s)
    ensures Names(SendCode(s, c, code)) && Evolves(s, SendCode(s, c, code))
  {
    Untouched(s, SendCode(s, c, code));
    if LiveChallenge(s, c) {
      var u := s.challenges[c].user;
      var slot := if u in s.emailed then s.emailed[u].slot else OneTimeCode.Empty;
      PutEmailed(s.emailed, u, Emailed(s.next, OneTimeCode.Send(slot, s.clock, OTP_TTL, code)), s.next, s.next + 1);
    }
  }

  lemma CallEvolves(env: Env, s: State, c: Call)
    requires Names(s)
    ensures Names(Apply(env, s, c)) && Evolves(s, Apply(env, s, c))
  {
    Untouched(s, s);
    match c
    case CTick(_) =>
    case CSetUsable(_, _) =>
    case CLogin(u, p, f) => LoginEvolves(s, u, p, f);
    case CVerify(ch, r, code, f) => VerifyEvolves(env, s, ch, r, code, f);
    case CSendCode(ch, code) => SendEvolves(s, ch, code);
    case CEnroll(k, w) => EnrollEvolves(s, k, w);
    case CConfirmTotp(_, _, _, _) => ConfirmEvolves(env, s, c);
    case CConfirmEmail(_, _, _, _) => ConfirmEvolves(env, s, c);
    case CDisable(k, _, _) => RemoveEvolves(s, k);
    case CRemoveStale(k) => RemoveEvolves(s, k);
  }

  // ----- single use -----

  /** Named from the supply and no longer recognisable. */
  ghost predicate Spent(s: State, x: Credential) {
    && !Unspent(s, x)
    && match x
       case TotpStep(secret, _) => secret < s.next
       case EmailCode(serial) => serial < s.next
       case RecoveryCode(id) => id < s.next
  }

  lemma SpentForever(s: State, s': State, x: Credential)
    requires Spent(s, x) && Evolves(s, s')
    ensures Spent(s', x)
  {
    match x
    case TotpStep(secret, step) =>
      assert forall k | k in s'.factors && s'.factors[k].secret == secret :: k in s.factors && LastStepOf(s'.factors[k]) >= LastStepOf(s.factors[k]);
    case EmailCode(serial) => assert forall u | u in s'.emailed && s'.emailed[u].serial == serial :: u in s.emailed;
    case RecoveryCode(id) => assert forall h | h in s'.recovery && s'.recovery[h].id == id :: h in s.recovery;
  }

  /** What a call appends to the log. */
  function Appended(env: Env, s: State, c: Call): seq<Event> {
    match c
    case CLogin(u, p, f) => (
      var v := LoginVerdict(s, u, p, f);
      if v.Refused? || v.LookupFailed? then []
      else if v.LoggedIn? then [PasswordVerified(u), SessionByPassword(u)]
      else if v.IssueFailed? || !f.challenge.Took() then [PasswordVerified(u)]
      else [PasswordVerified(u), ChallengeIssued(s.next, u)])
    case CVerify(ch, r, code, f) => (
      var v := VerifyVerdict(env, s, ch, r, code, f);
      if !v.Consumes() then []
      else
        var u := s.challenges[ch].user;
        var x := Recognise(env, s, u, r, code, f).value;
        if v.Verified? then [Consumed(x, u, Some(ch)), SessionByChallenge(ch, u)] else [Consumed(x, u, Some(ch))])
    case CConfirmTotp(u, code, hashes, tx) => (
      var k := Key(u, TotpKind);
      if k !in s.factors || s.factors[k].verified then []
      else
        var step := Totp.Accept(env.gen, s.factors[k].secret, code, LastStepOf(s.factors[k]), s.clock);
        var codes := InsertCodes(DeleteCodes(s.recovery, s.factors[k].id), s.factors[k].id, hashes, s.next);
        if step.None? || !tx.Took() || codes.None? then [] else [Consumed(TotpStep(s.factors[k].secret, step.value), u, None)])
    case _ => []
  }

  lemma CallAppends(env: Env, s: State, c: Call)
    ensures Apply(env, s, c).log == s.log + Appended(env, s, c)
  {
  }

  lemma RecognisedIsUnspent(env: Env, s: State, u: UserId, requested: Option<Kind>, code: string, f: VerifyFaults)
    requires Recognise(env, s, u, requested, code, f).Some?
    ensures Unspent(s, Recognise(env, s, u, requested, code, f).value)
  {
  }
}
