/** Whole runs of the login calls: single use of credentials and challenges, and what every session was preceded by. */
module MfaLog {
  import opened Base
  import opened Mfa
  import opened MfaRuns
  import Totp

  // ----- credentials -----

  lemma LastStepSpends(s: State, k: Key, step: int)
    requires Names(s) && k in s.factors && s.factors[k].lastStep == Some(step)
    ensures Spent(s, TotpStep(s.factors[k].secret, step))
  {
    assert forall a | a in s.factors && s.factors[a].secret == s.factors[k].secret :: a == k;
  }

  lemma DeletedSpends(s: State, s': State, u: UserId)
    requires Names(s) && u in s.emailed && s'.emailed == s.emailed - {u} && s'.next == s.next
    ensures Spent(s', EmailCode(s.emailed[u].serial))
  {
    assert forall v | v in s.emailed && s.emailed[v].serial == s.emailed[u].serial :: v == u;
  }

  lemma MarkedSpends(s: State, h: Hash)
    requires Names(s) && h in s.recovery && s.recovery[h].used
    ensures Spent(s, RecoveryCode(s.recovery[h].id))
  {
    assert forall g | g in s.recovery && s.recovery[g].id == s.recovery[h].id :: g == h;
  }

  /** Where the consumption shows: the step on the factor, the code's absence, the mark on the row. */
  lemma VerifyMarks(env: Env, s: State, c: nat, requested: Option<Kind>, code: string, f: VerifyFaults)
    requires VerifyVerdict(env, s, c, requested, code, f).Consumes()
    ensures
      var s', u, h := Verify(env, s, c, requested, code, f), s.challenges[c].user, env.hash(code);
      && s'.next == s.next
      && match Recognise(env, s, u, requested, code, f).value
         case TotpStep(secret, step) =>
           var k := Key(u, TotpKind); k in s'.factors && s'.factors[k].secret == secret && s'.factors[k].lastStep == Some(step)
         case EmailCode(serial) => u in s.emailed && s.emailed[u].serial == serial && s'.emailed == s.emailed - {u}
         case RecoveryCode(id) => h in s'.recovery && s'.recovery[h].id == id && s'.recovery[h].used
  {
  }

  /** A recognised credential was unspent before the call and is spent after it, whether or not a session followed. */
  lemma VerifySpends(env: Env, s: State, c: nat, requested: Option<Kind>, code: string, f: VerifyFaults)
    requires Names(s)
    requires VerifyVerdict(env, s, c, requested, code, f).Consumes()
    ensures
      var x := Recognise(env, s, s.challenges[c].user, requested, code, f).value;
      Unspent(s, x) && Spent(Verify(env, s, c, requested, code, f), x)
  {
    var s', u := Verify(env, s, c, requested, code, f), s.challenges[c].user;
    var x := Recognise(env, s, u, requested, code, f).value;
    RecognisedIsUnspent(env, s, u, requested, code, f);
    VerifyEvolves(env, s, c, requested, code, f);
    VerifyMarks(env, s, c, requested, code, f);
    match x
    case TotpStep(_, step) => LastStepSpends(s', Key(u, TotpKind), step);
    case EmailCode(_) => DeletedSpends(s, s', u);
    case RecoveryCode(_) => MarkedSpends(s', env.hash(code));
  }

  lemma ConfirmSpends(env: Env, s: State, c: Call)
    requires Names(s) && c.CConfirmTotp? && Appended(env, s, c) != []
    ensures Appended(env, s, c)[0].Consumed?
    ensures var x := Appended(env, s, c)[0].credential; Unspent(s, x) && Spent(Apply(env, s, c), x)
  {
    var k := Key(c.user, TotpKind);
    var step := Totp.Accept(env.gen, s.factors[k].secret, c.code, LastStepOf(s.factors[k]), s.clock);
    CallEvolves(env, s, c);
    assert Apply(env, s, c).factors[k].lastStep == step;
    LastStepSpends(Apply(env, s, c), k, step.value);
  }

  /** A call consumes at most one credential, first thing in its log entry. */
  lemma CallConsumes(env: Env, s: State, c: Call)
    requires Names(s)
    ensures
      var added := Appended(env, s, c);
      && |added| <= 2
      && (|added| == 2 ==> !added[1].Consumed?)
      && (added != [] && added[0].Consumed? ==> Unspent(s, added[0].credential) && Spent(Apply(env, s, c), added[0].credential))
  {
    if c.CVerify? && Appended(env, s, c) != [] {
      VerifySpends(env, s, c.challenge, c.requested, c.code, c.verify);
    } else if c.CConfirmTotp? && Appended(env, s, c) != [] {
      ConfirmSpends(env, s, c);
    }
  }

  /** Every consumed credential is spent, and none is consumed twice. */
  ghost predicate OneTime(s: State) {
    && (forall i | 0 <= i < |s.log| && s.log[i].Consumed? :: Spent(s, s.log[i].credential))
    && (forall i, j | 0 <= i < j < |s.log| && s.log[i].Consumed? && s.log[j].Consumed? :: s.log[i].credential != s.log[j].credential)
  }

  lemma OneTimeKept(s: State, s': State, added: seq<Event>)
    requires OneTime(s) && Evolves(s, s') && s'.log == s.log + added && |added| <= 2
    requires |added| == 2 ==> !added[1].Consumed?
    requires added != [] && added[0].Consumed? ==> Unspent(s, added[0].credential) && Spent(s', added[0].credential)
    ensures OneTime(s')
  {
    var n := |s.log|;
    forall i | 0 <= i < |s'.log| && s'.log[i].Consumed? ensures Spent(s', s'.log[i].credential) {
      if i < n { SpentForever(s, s', s.log[i].credential); }
    }
    forall i, j | 0 <= i < j < |s'.log| && s'.log[i].Consumed? && s'.log[j].Consumed?
      ensures s'.log[i].credential != s'.log[j].credential
    {
      if j >= n { assert j == n && s'.log[j] == added[0] && Spent(s, s.log[i].credential); }
    }
  }

  // ----- challenges -----

  /** A challenge that gave a session is gone for good, and gave no other. */
  ghost predicate ChallengeOnce(s: State) {
    && (forall i | 0 <= i < |s.log| && s.log[i].SessionByChallenge? :: s.log[i].challenge < s.next && s.log[i].challenge !in s.challenges)
    && (forall i, j | 0 <= i < j < |s.log| && s.log[i].SessionByChallenge? && s.log[j].SessionByChallenge? ::
          s.log[i].challenge != s.log[j].challenge)
  }

  lemma ChallengeOnceKept(s: State, s': State, added: seq<Event>)
    requires ChallengeOnce(s) && Names(s) && Evolves(s, s') && s'.log == s.log + added && |added| <= 2
    requires added != [] ==> !added[0].SessionByChallenge?
    requires |added| == 2 && added[1].SessionByChallenge? ==> added[1].challenge in s.challenges && added[1].challenge !in s'.challenges
    ensures ChallengeOnce(s')
  {
    var n := |s.log|;
    forall i | 0 <= i < |s'.log| && s'.log[i].SessionByChallenge?
      ensures s'.log[i].challenge < s'.next && s'.log[i].challenge !in s'.challenges
    {
      if i < n { assert s.log[i].challenge < s.next && s.log[i].challenge !in s.challenges; }
    }
    forall i, j | 0 <= i < j < |s'.log| && s'.log[i].SessionByChallenge? && s'.log[j].SessionByChallenge?
      ensures s'.log[i].challenge != s'.log[j].challenge
    {
      if j >= n { assert j == n + 1 && s'.log[j] == added[1] && s'.log[i] == s.log[i]; }
    }
  }

  // ----- the gate -----

  /** At `i` a login verified the password of `u` and, having found a factor, issued the challenge instead of a session. */
  ghost predicate IssuedAt(log: seq<Event>, c: nat, u: UserId, i: int) {
    0 <= i && i + 1 < |log| && log[i] == PasswordVerified(u) && log[i + 1] == ChallengeIssued(c, u)
  }

  /** The session at `j` directly follows the consumption of a credential against its challenge, which a login had issued before. */
  ghost predicate GatedAt(log: seq<Event>, j: int)
    requires 0 <= j < |log| && log[j].SessionByChallenge?
  {
    && 1 <= j && log[j - 1].Consumed? && log[j - 1].user == log[j].user && log[j - 1].against == Some(log[j].challenge)
    && exists i :: i + 1 < j - 1 && IssuedAt(log, log[j].challenge, log[j].user, i)
  }

  ghost predicate Gated(s: State) {
    && (forall c | c in s.challenges :: exists i :: IssuedAt(s.log, c, s.challenges[c].user, i))
    && (forall j | 0 <= j < |s.log| && s.log[j].SessionByChallenge? :: GatedAt(s.log, j))
  }

  lemma GatedAtExtends(log: seq<Event>, added: seq<Event>, j: int)
    requires 0 <= j < |log| && log[j].SessionByChallenge? && GatedAt(log, j)
    ensures GatedAt(log + added, j)
  {
    var i :| i + 1 < j - 1 && IssuedAt(log, log[j].challenge, log[j].user, i);
    assert IssuedAt(log + added, log[j].challenge, log[j].user, i);
  }

  lemma GatedKept(s: State, s': State, added: seq<Event>)
    requires Gated(s) && s'.log == s.log + added
    requires forall c | c in s'.challenges :: (c in s.challenges && s'.challenges[c] == s.challenges[c]) ||
                 added == [PasswordVerified(s'.challenges[c].user), ChallengeIssued(c, s'.challenges[c].user)]
    requires forall j | 0 <= j < |added| && added[j].SessionByChallenge? :: j == 1 && added[j].challenge in s.challenges &&
               added[0].Consumed? && added[0].user == added[j].user && added[0].against == Some(added[j].challenge) &&
               added[j].user == s.challenges[added[j].challenge].user
    requires added != [] ==> added[0].Consumed? || added[0].PasswordVerified?
    ensures Gated(s')
  {
    var n := |s.log|;
    forall c | c in s'.challenges ensures exists i :: IssuedAt(s'.log, c, s'.challenges[c].user, i) {
      if c in s.challenges && s'.challenges[c] == s.challenges[c] {
        var i :| IssuedAt(s.log, c, s.challenges[c].user, i);
        assert IssuedAt(s'.log, c, s'.challenges[c].user, i);
      } else {
        assert IssuedAt(s'.log, c, s'.challenges[c].user, n);
      }
    }
    forall j | 0 <= j < |s'.log| && s'.log[j].SessionByChallenge? ensures GatedAt(s'.log, j) {
      if j < n {
        GatedAtExtends(s.log, added, j);
      } else {
        var e := added[j - n];
        var i :| IssuedAt(s.log, e.challenge, s.challenges[e.challenge].user, i);
        assert IssuedAt(s'.log, e.challenge, e.user, i);
      }
    }
  }

  /** What one call does to the challenges, next to what it appends. */
  lemma CallGates(env: Env, s: State, c: Call)
    ensures
      var s', added := Apply(env, s, c), Appended(env, s, c);
      && (forall x | x in s'.challenges :: (x in s.challenges && s'.challenges[x] == s.challenges[x]) ||
            added == [PasswordVerified(s'.challenges[x].user), ChallengeIssued(x, s'.challenges[x].user)])
      && (forall j | 0 <= j < |added| && added[j].SessionByChallenge? :: j == 1 && added[j].challenge in s.challenges &&
            added[j].challenge !in s'.challenges &&
            added[0].Consumed? && added[0].user == added[j].user && added[0].against == Some(added[j].challenge) &&
            added[j].user == s.challenges[added[j].challenge].user)
      && (added != [] ==> added[0].Consumed? || added[0].PasswordVerified?)
  {
    match c
    case CLogin(_, _, _) =>
    case CVerify(_, _, _, _) =>
    case CConfirmTotp(u, code, hashes, tx) => assert Apply(env, s, c).challenges == s.challenges;
    case CConfirmEmail(u, ok, hashes, tx) => assert Apply(env, s, c).challenges == s.challenges;
    case _ => assert Apply(env, s, c).challenges == s.challenges;
  }

  ghost predicate LogInv(s: State) { Names(s) && OneTime(s) && ChallengeOnce(s) && Gated(s) }

  lemma CallKeepsLogInv(env: Env, s: State, c: Call)
    requires LogInv(s)
    ensures LogInv(Apply(env, s, c))
  {
    var s', added := Apply(env, s, c), Appended(env, s, c);
    CallEvolves(env, s, c);
    CallAppends(env, s, c);
    CallConsumes(env, s, c);
    CallGates(env, s, c);
    OneTimeKept(s, s', added);
    ChallengeOnceKept(s, s', added);
    GatedKept(s, s', added);
  }

  /**
   * In every run: no credential and no challenge is consumed twice, and every
   * session through a challenge follows a login that verified the password and
   * a later credential consumption against that challenge.
   */
  lemma {:induction false} ConsumedOnceAndGated(env: Env, s: State, calls: seq<Call>)
    requires Initial(s)
    ensures LogInv(Run(env, s, calls))
  {
    if calls != [] {
      ConsumedOnceAndGated(env, s, calls[..|calls| - 1]);
      CallKeepsLogInv(env, Run(env, s, calls[..|calls| - 1]), calls[|calls| - 1]);
    }
  }

  /**
   * A call gives a session on the password alone exactly when it is a login with
   * the right password to a usable account, both factor lookups answered, neither
   * found an enabled factor, and the session could be issued.
   */
  lemma PasswordAloneIff(env: Env, s: State, c: Call, u: UserId)
    ensures
      SessionByPassword(u) in Appended(env, s, c) <==>
        && c.CLogin? && c.user == u && c.passwordOk && u in s.usable && c.login.totp && c.login.email && c.login.issue
        && !Enabled(s, u, TotpKind) && !Enabled(s, u, EmailKind)
  {
    if c.CLogin? {
      var ms := EnabledMethods(s, c.user, c.login.totp, c.login.email);
      assert ms.Some? ==> (ms.value == [] <==> !Enabled(s, c.user, TotpKind) && !Enabled(s, c.user, EmailKind));
    }
  }

  lemma IssuedAlone(env: Env, s: State, c: Call, j: nat)
    requires |s.log| <= j < |Apply(env, s, c).log| && Apply(env, s, c).log[j].SessionByPassword?
    ensures
      var u := Apply(env, s, c).log[j].user;
      && c.CLogin? && c.user == u && c.passwordOk && c.login.totp && c.login.email
      && u in s.usable && !Enabled(s, u, TotpKind) && !Enabled(s, u, EmailKind)
  {
    CallAppends(env, s, c);
    var u := Apply(env, s, c).log[j].user;
    assert Appended(env, s, c)[j - |s.log|] == SessionByPassword(u);
    PasswordAloneIff(env, s, c, u);
  }

  /**
   * Over whole runs: every session in the log that was issued on the password
   * alone, at whatever position, was put there by a login of that user with the
   * right password, and at that very moment the account was usable, both
   * lookups answered, and it had no enabled factor.
   */
  lemma {:induction false} PasswordSessionsHadNoFactor(env: Env, s: State, calls: seq<Call>, j: nat) returns (k: nat)
    requires Initial(s) && j < |Run(env, s, calls).log| && Run(env, s, calls).log[j].SessionByPassword?
    ensures k < |calls|
    ensures
      var u, c, x := Run(env, s, calls).log[j].user, calls[k], Run(env, s, calls[..k]);
      && c.CLogin? && c.user == u && c.passwordOk && c.login.totp && c.login.email
      && |x.log| <= j < |Apply(env, x, c).log|
      && u in x.usable && !Enabled(x, u, TotpKind) && !Enabled(x, u, EmailKind)
  {
    assert calls == [] ==> Run(env, s, calls).log == [];
    var n := |calls| - 1;
    var x := Run(env, s, calls[..n]);
    CallAppends(env, x, calls[n]);
    if j < |x.log| {
      k := PasswordSessionsHadNoFactor(env, s, calls[..n], j);
      assert calls[..n][..k] == calls[..k];
    } else {
      IssuedAlone(env, x, calls[n], j);
      k := n;
    }
  }
}
