/** What one second step takes away, and that it takes nothing else. */
module MfaConservation {
  import opened Base
  import opened Mfa
  import opened MfaRuns
  import opened MfaLog
  import OneTimeCode
  import Totp

  /** The emailed codes are as before, but for one more wrong attempt counted against the code of `u`. */
  ghost predicate GuessCounted(s: State, s': State, u: UserId) {
    || s'.emailed == s.emailed
    || (&& u in s.emailed && s.emailed[u].slot.Stored?
        && var meta := s.emailed[u].slot.meta;
        s'.emailed == s.emailed[u := s.emailed[u].(slot := OneTimeCode.Stored(meta.(attempts := meta.attempts + 1), s.clock + OTP_TTL))])
  }

  /** The three stores differ in credential `x` of `u` and nothing else. */
  ghost predicate TakesOnly(s: State, s': State, u: UserId, x: Credential) {
    match x
    case TotpStep(secret, step) =>
      var k := Key(u, TotpKind);
      && k in s.factors && s.factors[k].secret == secret && LastStepOf(s.factors[k]) < step
      && s'.factors == s.factors[k := s.factors[k].(lastStep := Some(step))]
      && s'.recovery == s.recovery && s'.emailed == s.emailed
    case EmailCode(serial) =>
      && u in s.emailed && s.emailed[u].serial == serial
      && s'.emailed == s.emailed - {u}
      && s'.factors == s.factors && s'.recovery == s.recovery
    case RecoveryCode(id) =>
      && (exists h :: h in s.recovery && s.recovery[h].id == id && !s.recovery[h].used
           && s'.recovery == s.recovery[h := s.recovery[h].(used := true)])
      && s'.factors == s.factors && GuessCounted(s, s', u)
  }

  /** A step of the same secret no later than the accepted one is overtaken by it (section 5.2 of RFC 6238). */
  predicate Overtaken(x: Credential, y: Credential) {
    x.TotpStep? && y.TotpStep? && y.secret == x.secret && y.step <= x.step
  }

  // ----- the stores -----

  lemma EmailedEffect(env: Env, s: State, u: UserId, requested: Option<Kind>, code: string, f: VerifyFaults)
    ensures
      var m := EmailedAfter(env, s, u, requested, code, f);
      var x := Recognise(env, s, u, requested, code, f);
      if x.Some? && x.value.TotpStep? then m == s.emailed
      else if x.Some? && x.value.EmailCode? then u in s.emailed && s.emailed[u].serial == x.value.serial && m == s.emailed - {u}
      else GuessCounted(s, s.(emailed := m), u)
  {
  }

  /** Whenever a credential is consumed, with or without a session in the end, it is the only thing taken. */
  lemma ConsumptionTakesOnly(env: Env, s: State, c: nat, requested: Option<Kind>, code: string, f: VerifyFaults)
    requires VerifyVerdict(env, s, c, requested, code, f).Consumes()
    ensures
      var u := s.challenges[c].user;
      TakesOnly(s, Verify(env, s, c, requested, code, f), u, Recognise(env, s, u, requested, code, f).value)
  {
    var u, h := s.challenges[c].user, env.hash(code);
    var x := Recognise(env, s, u, requested, code, f).value;
    EmailedEffect(env, s, u, requested, code, f);
    if x.RecoveryCode? {
      assert h in s.recovery && s.recovery[h].id == x.id && !s.recovery[h].used;
    }
  }

  // ----- conservation -----

  lemma TotpConserves(s: State, s': State, u: UserId, x: Credential, y: Credential)
    requires Names(s) && x.TotpStep? && TakesOnly(s, s', u, x) && !Overtaken(x, y)
    ensures Unspent(s', y) <==> Unspent(s, y)
  {
    var k := Key(u, TotpKind);
    if y.TotpStep? {
      assert forall a | a in s.factors :: a != k ==> s'.factors[a] == s.factors[a];
      if Unspent(s, y) {
        var a :| a in s.factors && a.kind == TotpKind && s.factors[a].secret == y.secret && LastStepOf(s.factors[a]) < y.step;
        assert a in s'.factors && s'.factors[a].secret == y.secret && LastStepOf(s'.factors[a]) < y.step;
      }
      if Unspent(s', y) {
        var a :| a in s'.factors && a.kind == TotpKind && s'.factors[a].secret == y.secret && LastStepOf(s'.factors[a]) < y.step;
        assert a in s.factors && s.factors[a].secret == y.secret && LastStepOf(s.factors[a]) < y.step;
      }
    }
  }

  lemma EmailConserves(s: State, s': State, u: UserId, x: Credential, y: Credential)
    requires Names(s) && x.EmailCode? && TakesOnly(s, s', u, x) && y != x
    ensures Unspent(s', y) <==> Unspent(s, y)
  {
    if y.EmailCode? && Unspent(s, y) {
      var v :| v in s.emailed && s.emailed[v].serial == y.serial;
      assert v in s'.emailed && s'.emailed[v].serial == y.serial;
    }
  }

  lemma SameSerials(s: State, s': State, u: UserId, serial: nat)
    requires GuessCounted(s, s', u)
    ensures Unspent(s', EmailCode(serial)) <==> Unspent(s, EmailCode(serial))
  {
    assert s'.emailed.Keys == s.emailed.Keys;
    assert forall v | v in s.emailed :: s'.emailed[v].serial == s.emailed[v].serial;
    if Unspent(s, EmailCode(serial)) {
      var v :| v in s.emailed && s.emailed[v].serial == serial;
      assert v in s'.emailed && s'.emailed[v].serial == serial;
    }
  }

  lemma RecoveryConserves(s: State, s': State, u: UserId, x: Credential, y: Credential)
    requires Names(s) && x.RecoveryCode? && TakesOnly(s, s', u, x) && y != x
    ensures Unspent(s', y) <==> Unspent(s, y)
  {
    if y.EmailCode? { SameSerials(s, s', u, y.serial); }
    if y.RecoveryCode? {
      var h :| h in s.recovery && s.recovery[h].id == x.id && !s.recovery[h].used
               && s'.recovery == s.recovery[h := s.recovery[h].(used := true)];
      if Unspent(s, y) {
        var g :| g in s.recovery && s.recovery[g].id == y.id && !s.recovery[g].used;
        assert g in s'.recovery && s'.recovery[g].id == y.id && !s'.recovery[g].used;
      }
      if Unspent(s', y) {
        var g :| g in s'.recovery && s'.recovery[g].id == y.id && !s'.recovery[g].used;
        assert g in s.recovery && s.recovery[g].id == y.id && !s.recovery[g].used;
      }
    }
  }

  lemma TakenConserves(s: State, s': State, u: UserId, x: Credential, y: Credential)
    requires Names(s) && TakesOnly(s, s', u, x) && y != x && !Overtaken(x, y)
    ensures Unspent(s', y) <==> Unspent(s, y)
  {
    match x
    case TotpStep(_, _) => TotpConserves(s, s', u, x, y);
    case EmailCode(_) => EmailConserves(s, s', u, x, y);
    case RecoveryCode(_) => RecoveryConserves(s, s', u, x, y);
  }

  /**
   * A successful `VerifyMFALogin` takes away exactly its challenge and exactly
   * one credential: that one is spent, and every other credential of every
   * account is as usable as before, earlier steps of the same secret aside. A
   * named method limits it to that method or a recovery row.
   */
  lemma SuccessConsumesOne(env: Env, s: State, c: nat, requested: Option<Kind>, code: string, f: VerifyFaults)
    requires Names(s) && VerifyVerdict(env, s, c, requested, code, f).Verified?
    ensures
      var s', u := Verify(env, s, c, requested, code, f), s.challenges[c].user;
      && c in s.challenges && s'.challenges == s.challenges - {c}
      && Recognise(env, s, u, requested, code, f).Some?
      && var x := Recognise(env, s, u, requested, code, f).value;
      && s'.log == s.log + [Consumed(x, u, Some(c)), SessionByChallenge(c, u)]
      && TakesOnly(s, s', u, x)
      && Unspent(s, x) && !Unspent(s', x)
      && (forall y | y != x && !Overtaken(x, y) :: Unspent(s', y) <==> Unspent(s, y))
      && (requested == Some(TotpKind) ==> x.TotpStep? || x.RecoveryCode?)
      && (requested == Some(EmailKind) ==> x.EmailCode? || x.RecoveryCode?)
  {
    var s', u := Verify(env, s, c, requested, code, f), s.challenges[c].user;
    var x := Recognise(env, s, u, requested, code, f).value;
    ConsumptionTakesOnly(env, s, c, requested, code, f);
    VerifySpends(env, s, c, requested, code, f);
    forall y | y != x && !Overtaken(x, y) ensures Unspent(s', y) <==> Unspent(s, y) { TakenConserves(s, s', u, x, y); }
  }

  /** A call that consumes nothing leaves the challenges and every credential as they were; at most one wrong guess is counted. */
  lemma FailureConsumesNothing(env: Env, s: State, c: nat, requested: Option<Kind>, code: string, f: VerifyFaults)
    requires !VerifyVerdict(env, s, c, requested, code, f).Consumes()
    ensures
      var s' := Verify(env, s, c, requested, code, f);
      && s'.challenges == s.challenges && s'.factors == s.factors && s'.recovery == s.recovery && s'.log == s.log
      && (forall y :: Unspent(s', y) <==> Unspent(s, y))
      && (s' != s ==> c in s.challenges && GuessCounted(s, s', s.challenges[c].user))
  {
    var s' := Verify(env, s, c, requested, code, f);
    if VerifyVerdict(env, s, c, requested, code, f).Proceeds() {
      var u := s.challenges[c].user;
      EmailedEffect(env, s, u, requested, code, f);
      assert GuessCounted(s, s', u);
      forall y ensures Unspent(s', y) <==> Unspent(s, y) {
        if y.EmailCode? { SameSerials(s, s', u, y.serial); }
      }
    }
  }
}
