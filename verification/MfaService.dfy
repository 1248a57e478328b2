/** The login gate, the second step and the enrolment transaction as they run, proved equal to the functions of `Mfa`. */
module MfaService {
  import opened Base
  import opened Mfa
  import OneTimeCode
  import Totp

  class MfaStores {
    var clock: Time
    var factors: map<Key, Factor>
    var recovery: map<Hash, Recovery>
    var emailed: map<UserId, Emailed>
    var challenges: map<nat, Challenge>
    var usable: set<UserId>
    ghost var log: seq<Event>
    var next: nat

    constructor (now: Time, accounts: set<UserId>)
      ensures Initial(View()) && View().usable == accounts && View().clock == now
    {
      clock, usable, log, next := now, accounts, [], 0;
      factors, recovery, emailed, challenges := map[], map[], map[], map[];
    }

    ghost function View(): State
      reads this
    {
      State(clock, factors, recovery, emailed, challenges, usable, log, next)
    }

    // ----- the password step -----

    method ListEnabledMethods(u: UserId, totpOk: bool, emailOk: bool) returns (methods: Option<seq<Kind>>)
      ensures methods == EnabledMethods(View(), u, totpOk, emailOk)
    {
      var found := [];
      if !totpOk { return None; }
      if Key(u, TotpKind) in factors && factors[Key(u, TotpKind)].enabled { found := found + [TotpKind]; }
      if !emailOk { return None; }
      if Key(u, EmailKind) in factors && factors[Key(u, EmailKind)].enabled { found := found + [EmailKind]; }
      assert found == (if Enabled(View(), u, TotpKind) then [TotpKind] else []) + (if Enabled(View(), u, EmailKind) then [EmailKind] else []);
      return Some(found);
    }

    /** The loop of `mfaMethodEnabled`. */
    method MethodEnabled(methods: seq<Kind>, k: Kind) returns (found: bool)
      ensures found <==> k in methods
    {
      for i := 0 to |methods|
        invariant k !in methods[..i]
      {
        if methods[i] == k { return true; }
      }
      return false;
    }

    /** `Login` from the password check on. */
    method PasswordStep(u: UserId, passwordOk: bool, f: LoginFaults) returns (reply: LoginReply)
      modifies this
      ensures View() == Login(old(View()), u, passwordOk, f)
      ensures reply == LoginVerdict(old(View()), u, passwordOk, f)
    {
      if !passwordOk || u !in usable { return Refused; }
      var methods := ListEnabledMethods(u, f.totp, f.email);
      if methods.None? { return LookupFailed; }
      log := log + [PasswordVerified(u)];
      if |methods.value| > 0 {
        var c := next;
        next := next + 1;
        if f.challenge.Took() {
          challenges := challenges[c := Challenge(u, clock + CHALLENGE_TTL)];
          log := log + [ChallengeIssued(c, u)];
        }
        return if f.challenge.Acked() then MfaRequired(c) else ChallengeFailed;
      }
      if !f.issue { return IssueFailed; }
      log := log + [SessionByPassword(u)];
      return LoggedIn;
    }

    // ----- the second step -----

    method TryTotp(env: Env, u: UserId, code: string) returns (accepted: bool)
      requires Enabled(View(), u, TotpKind)
      modifies this`factors
      ensures
        var step := Totp.Accept(env.gen, old(factors)[Key(u, TotpKind)].secret, code, LastStepOf(old(factors)[Key(u, TotpKind)]), clock);
        && accepted == step.Some?
        && factors == if accepted
                      then old(factors)[Key(u, TotpKind) := old(factors)[Key(u, TotpKind)].(lastStep := step)] else old(factors)
    {
      var k := Key(u, TotpKind);
      var f := factors[k];
      var step, ok := Totp.ValidateTOTPCode(env.gen, f.secret, code, LastStepOf(f), clock);
      if ok { factors := factors[k := f.(lastStep := Some(step))]; }
      return ok;
    }

    method TryEmail(u: UserId, code: string) returns (accepted: bool)
      modifies this`emailed
      ensures
        if u !in old(emailed) then !accepted && emailed == old(emailed)
        else match OneTimeCode.Check(old(emailed)[u].slot, clock, code)
          case Right => accepted && emailed == old(emailed) - {u}
          case Wrong => !accepted && emailed ==
            old(emailed)[u := old(emailed)[u].(slot := OneTimeCode.Guess(old(emailed)[u].slot, clock, OTP_TTL, code, true))]
          case _ => !accepted && emailed == old(emailed)
    {
      if u !in emailed { return false; }
      var store := new OneTimeCode.CodeStore();
      store.slot := emailed[u].slot;
      var verdict := store.VerifyCode(clock, OTP_TTL, code, true);
      match verdict
      case Right =>
        emailed := emailed - {u};
        return true;
      case Wrong =>
        emailed := emailed[u := emailed[u].(slot := store.slot)];
        return false;
      case _ =>
        return false;
    }

    method TryRecovery(h: Hash) returns (accepted: bool)
      modifies this`recovery
      ensures accepted <==> h in old(recovery) && !old(recovery)[h].used
      ensures recovery == if accepted then old(recovery)[h := old(recovery)[h].(used := true)] else old(recovery)
    {
      if h in recovery && !recovery[h].used {
        recovery := recovery[h := recovery[h].(used := true)];
        return true;
      }
      return false;
    }

    /**
     * The three attempts in order, each only if none before it succeeded; recovery
     * codes are tried whatever was requested. `failed`: a read ended the attempt.
     */
    method Authenticate(env: Env, u: UserId, requested: Option<Kind>, code: string, f: VerifyFaults, hasTotp: bool, hasEmail: bool)
      returns (authenticated: bool, failed: bool)
      requires hasTotp == Enabled(View(), u, TotpKind) && hasEmail == Enabled(View(), u, EmailKind)
      modifies this`factors, this`emailed, this`recovery
      ensures
        var s := old(View());
        var cred := Recognise(env, s, u, requested, code, f);
        && authenticated == cred.Some?
        && failed == (cred.None? && (Stops(env, s, u, requested, code, f) || !f.recovery))
        && factors == FactorsAfter(s, u, cred)
        && emailed == EmailedAfter(env, s, u, requested, code, f)
        && recovery == RecoveryAfter(s, env.hash(code), cred)
    {
      authenticated := false;
      if (requested.None? || requested == Some(TotpKind)) && hasTotp {
        if !f.totp { return false, true; }
        authenticated := TryTotp(env, u, code);
        if authenticated { return true, false; }
      }
      authenticated, failed := TryOthers(env, u, requested, code, f, hasEmail);
    }

    /** The emailed code, then the recovery codes. */
    method TryOthers(env: Env, u: UserId, requested: Option<Kind>, code: string, f: VerifyFaults, hasEmail: bool)
      returns (authenticated: bool, failed: bool)
      requires hasEmail == Enabled(View(), u, EmailKind)
      requires TotpMatch(env, View(), u, requested, code).None? && (Tries(View(), u, requested, TotpKind) ==> f.totp)
      modifies this`emailed, this`recovery
      ensures
        var s := old(View());
        var cred := Recognise(env, s, u, requested, code, f);
        && authenticated == cred.Some? && (cred.Some? ==> !cred.value.TotpStep?)
        && failed == (cred.None? && (Stops(env, s, u, requested, code, f) || !f.recovery))
        && emailed == EmailedAfter(env, s, u, requested, code, f)
        && recovery == RecoveryAfter(s, env.hash(code), cred)
    {
      authenticated := false;
      if (requested.None? || requested == Some(EmailKind)) && hasEmail {
        if !f.email { return false, true; }
        if f.stored { authenticated := TryEmail(u, code); }
      }
      if !authenticated {
        if !f.recovery { return false, true; }
        authenticated := TryRecovery(env.hash(code));
      }
      return authenticated, false;
    }

    /** Everything refused before a credential is looked at. */
    method Screen(c: nat, requested: Option<Kind>, listed: bool) returns (refusal: Option<VerifyReply>, hasTotp: bool, hasEmail: bool)
      ensures LiveChallenge(View(), c) && listed ==> hasTotp == Enabled(View(), challenges[c].user, TotpKind)
      ensures LiveChallenge(View(), c) && listed ==> hasEmail == Enabled(View(), challenges[c].user, EmailKind)
      ensures refusal == if !LiveChallenge(View(), c) then Some(InvalidChallenge)
                         else if !listed then Some(ListingFailed)
                         else if !hasTotp && !hasEmail then Some(NotEnabled)
                         else if requested.Some? && !Enabled(View(), challenges[c].user, requested.value) then Some(InvalidMethod)
                         else None
    {
      if c !in challenges || challenges[c].exp <= clock { return Some(InvalidChallenge), false, false; }
      if !listed { return Some(ListingFailed), false, false; }
      var methods := ListEnabledMethods(challenges[c].user, true, true);
      hasTotp := MethodEnabled(methods.value, TotpKind);
      hasEmail := MethodEnabled(methods.value, EmailKind);
      refusal := None;
      assert requested.Some? ==> requested.value == TotpKind || requested.value == EmailKind;
      assert |methods.value| == 0 <==> !hasTotp && !hasEmail;
      if |methods.value| == 0 {
        refusal := Some(NotEnabled);
      } else if (requested == Some(TotpKind) && !hasTotp) || (requested == Some(EmailKind) && !hasEmail) {
        refusal := Some(InvalidMethod);
      }
    }

    /** `code` is the trimmed submission and `env.hash` upper-cases before hashing. */
    method VerifyMFALogin(env: Env, c: nat, requested: Option<Kind>, code: string, f: VerifyFaults) returns (reply: VerifyReply)
      modifies this
      ensures View() == Verify(env, old(View()), c, requested, code, f)
      ensures reply == VerifyVerdict(env, old(View()), c, requested, code, f)
    {
      var refusal, hasTotp, hasEmail := Screen(c, requested, f.methods);
      if refusal.Some? { return refusal.value; }
      reply := CheckCode(env, c, requested, code, f, hasTotp, hasEmail);
    }

    /** From the three attempts on. */
    method CheckCode(env: Env, c: nat, requested: Option<Kind>, code: string, f: VerifyFaults, hasTotp: bool, hasEmail: bool)
      returns (reply: VerifyReply)
      requires LiveChallenge(View(), c) && f.methods && (hasTotp || hasEmail)
      requires hasTotp == Enabled(View(), challenges[c].user, TotpKind) && hasEmail == Enabled(View(), challenges[c].user, EmailKind)
      requires requested.Some? ==> Enabled(View(), challenges[c].user, requested.value)
      modifies this
      ensures View() == Verify(env, old(View()), c, requested, code, f)
      ensures reply == VerifyVerdict(env, old(View()), c, requested, code, f)
    {
      var u := challenges[c].user;
      ghost var s := View();
      ghost var cred := Recognise(env, s, u, requested, code, f);
      var authenticated, failed := Authenticate(env, u, requested, code, f, hasTotp, hasEmail);
      log := LogAfter(s, c, u, cred, f.account && u in usable && f.issue);
      if failed { return ReadFailed; }
      if !authenticated { return InvalidCode; }
      if !f.account { return AccountFailed; }
      if u !in usable { return NotUsable; }
      challenges := challenges - {c};
      return if f.issue then Verified else SessionFailed;
    }

    // ----- enrolment -----

    /** The inserts of the transaction, on its own view of the table; `None` is a unique violation. */
    method InsertAll(table: map<Hash, Recovery>, factor: nat, hashes: seq<Hash>, id: nat, tx: Tx)
      returns (result: Option<map<Hash, Recovery>>)
      ensures
        result == if tx.FailedAt? && 3 <= tx.stmt < 3 + |hashes| then None else InsertCodes(table, factor, hashes, id)
    {
      var work := table;
      for i := 0 to |hashes|
        invariant InsertCodes(table, factor, hashes[..i], id) == Some(work)
        invariant tx.FailedAt? ==> tx.stmt < 3 || 3 + i <= tx.stmt
      {
        assert hashes[..i + 1][..i] == hashes[..i];
        if tx == FailedAt(3 + i) { return None; }
        if hashes[i] in work {
          InsertFailsEarly(table, factor, hashes, id, i + 1);
          return None;
        }
        work := work[hashes[i] := Recovery(factor, id + i, false)];
      }
      assert hashes[..|hashes|] == hashes;
      return Some(work);
    }

    /** `CompleteMFAEnrollment` with a step, `CompleteOTPFactorEnrollment` without: four kinds of statement, then the commit. */
    method CompleteEnrollment(k: Key, step: Option<int>, hashes: seq<Hash>, tx: Tx) returns (ok: bool)
      requires k in factors
      modifies this
      ensures View() == Complete(old(View()), k, step, hashes, tx)
      ensures ok <==> tx.Committed? && InsertCodes(DeleteCodes(old(recovery), old(factors)[k].id), old(factors)[k].id, hashes, old(next)).Some?
    {
      var id := next;
      next := next + |hashes|;
      var f := factors[k];
      if tx == FailedAt(0) { return false; }
      f := f.(verified := true, enabled := true);
      if tx == FailedAt(1) { return false; }
      if step.Some? { f := f.(lastStep := step); }
      if tx == FailedAt(2) { return false; }
      var table := map h | h in recovery && recovery[h].factor != f.id :: recovery[h];
      assert table == DeleteCodes(recovery, f.id);
      var inserted := InsertAll(table, f.id, hashes, id, tx);
      if inserted.None? { return false; }
      if tx.Committed? || (tx.CommitFailed? && tx.applied) {
        factors, recovery := factors[k := f], inserted.value;
        if step.Some? { log := log + [Consumed(TotpStep(f.secret, step.value), k.user, None)]; }
      }
      return tx.Committed?;
    }
  }

  lemma {:induction false} InsertFailsEarly(table: map<Hash, Recovery>, factor: nat, hashes: seq<Hash>, id: nat, i: nat)
    requires i <= |hashes| && InsertCodes(table, factor, hashes[..i], id).None?
    ensures InsertCodes(table, factor, hashes, id).None?
    decreases |hashes|
  {
    if i == |hashes| {
      assert hashes[..i] == hashes;
    } else {
      var n := |hashes| - 1;
      assert hashes[..n][..i] == hashes[..i];
      InsertFailsEarly(table, factor, hashes[..n], id, i);
    }
  }

  // ----- recovery codes -----

  /** `generateRecoveryCodes`: the codes drawn before the first failing draw count for nothing. */
  method GenerateRecoveryCodes(draw: nat -> Option<string>, hash: string -> Hash, n: nat)
    returns (raw: Option<seq<string>>, hashes: seq<Hash>)
    ensures raw.None? <==> exists i: nat :: i < n && draw(i).None?
    ensures raw.Some? ==> |raw.value| == |hashes| == n && forall i: nat | i < n :: draw(i) == Some(raw.value[i]) && hashes[i] == hash(raw.value[i])
    ensures raw.None? ==> hashes == []
  {
    var codes := [];
    hashes := [];
    for i := 0 to n
      invariant |codes| == |hashes| == i
      invariant forall j: nat | j < i :: draw(j) == Some(codes[j]) && hashes[j] == hash(codes[j])
    {
      var code := draw(i);
      if code.None? { return None, []; }
      codes, hashes := codes + [code.value], hashes + [hash(code.value)];
    }
    return Some(codes), hashes;
  }
}
