/** Who gets through the second step: which codes are accepted, by whom, when; and the exact effect of the factor calls. */
module MfaGate {
  import opened Base
  import opened Mfa
  import opened MfaRuns
  import opened MfaLog
  import OneTimeCode
  import Totp

  // ----- the password step -----

  /** Each answer of the password step. */
  lemma PasswordAnswerIff(s: State, u: UserId, passwordOk: bool, f: LoginFaults)
    ensures
      var v, letIn, guarded := LoginVerdict(s, u, passwordOk, f), passwordOk && u in s.usable,
                                HasFactor(s, u, TotpKind) || HasFactor(s, u, EmailKind);
      && (v.Refused? <==> !letIn)
      && (v.LookupFailed? <==> letIn && !(f.totp && f.email))
      && (v.LoggedIn? <==> letIn && f.totp && f.email && !guarded && f.issue)
      && (v.MfaRequired? <==> letIn && f.totp && f.email && guarded && f.challenge.Applied?)
  {
  }

  /** The methods offered are the active factors, TOTP before email. */
  lemma OfferedMethods(s: State, u: UserId)
    ensures
      var ms := EnabledMethods(s, u, true, true);
      && ms.Some? && (forall k :: k in ms.value <==> HasFactor(s, u, k))
      && (HasFactor(s, u, TotpKind) ==> ms.value[0] == TotpKind) && |ms.value| <= 2
  {
    forall k ensures k in EnabledMethods(s, u, true, true).value <==> HasFactor(s, u, k) {
      assert k == TotpKind || k == EmailKind;
    }
  }

  // ----- which codes open the second step -----

  predicate HasFactor(s: State, u: UserId, k: Kind) { Key(u, k) in s.factors && s.factors[Key(u, k)].enabled }

  /** The code of an unused step of the enrolled secret, at most one step away from now. */
  ghost predicate IsTotpCode(env: Env, s: State, u: UserId, code: string) {
    && HasFactor(s, u, TotpKind)
    && var f := s.factors[Key(u, TotpKind)];
    exists n: int ::
      && env.gen(f.secret, n) == Some(code)
      && n > (match f.lastStep case None => 0 case Some(last) => last)
      && Totp.StepAt(s.clock) - 1 <= n <= Totp.StepAt(s.clock) + 1
  }

  /** The code last mailed to the user, stored, not expired and guessed at fewer times than allowed. */
  predicate IsEmailedCode(s: State, u: UserId, code: string) {
    && HasFactor(s, u, EmailKind) && u in s.emailed && s.emailed[u].slot.Stored?
    && var slot := s.emailed[u].slot;
    s.clock < slot.keyExp && s.clock <= slot.meta.expiresAt && slot.meta.attempts < slot.meta.maxAttempts && slot.meta.code == code
  }

  predicate IsRecoveryCode(env: Env, s: State, code: string) { env.hash(code) in s.recovery && !s.recovery[env.hash(code)].used }

  /** A code the named method, or any if none is named, accepts. */
  ghost predicate Opens(env: Env, s: State, u: UserId, requested: Option<Kind>, code: string) {
    || (requested != Some(EmailKind) && IsTotpCode(env, s, u, code))
    || (requested != Some(TotpKind) && IsEmailedCode(s, u, code))
    || IsRecoveryCode(env, s, code)
  }

  /** The challenge is live and belongs to `u`, whose account has a factor, and the named one if one is named. */
  predicate Challenges(s: State, c: nat, u: UserId, requested: Option<Kind>) {
    && c in s.challenges && s.challenges[c].user == u && s.clock < s.challenges[c].exp
    && (HasFactor(s, u, TotpKind) || HasFactor(s, u, EmailKind))
    && (requested == Some(TotpKind) ==> HasFactor(s, u, TotpKind)) && (requested == Some(EmailKind) ==> HasFactor(s, u, EmailKind))
  }

  lemma TotpMatchIff(env: Env, s: State, u: UserId, requested: Option<Kind>, code: string)
    ensures TotpMatch(env, s, u, requested, code).Some? <==> requested != Some(EmailKind) && IsTotpCode(env, s, u, code)
  {
    if HasFactor(s, u, TotpKind) && requested != Some(EmailKind) {
      assert requested.None? || requested.value == TotpKind;
      var f := s.factors[Key(u, TotpKind)];
      var r := Totp.Accept(env.gen, f.secret, code, LastStepOf(f), s.clock);
      assert forall n: int :: Totp.Matches(env.gen, f.secret, code, LastStepOf(f), s.clock, n) <==>
          env.gen(f.secret, n) == Some(code) && n > LastStepOf(f) && Totp.StepAt(s.clock) - 1 <= n <= Totp.StepAt(s.clock) + 1;
      if r.Some? { assert Totp.Matches(env.gen, f.secret, code, LastStepOf(f), s.clock, r.value); }
    }
  }

  /** With every read answered, a code is recognised exactly if it opens. */
  lemma RecognisedIff(env: Env, s: State, u: UserId, requested: Option<Kind>, code: string, f: VerifyFaults)
    requires f.totp && f.email && f.stored && f.recovery
    ensures Recognise(env, s, u, requested, code, f).Some? <==> Opens(env, s, u, requested, code)
  {
    TotpMatchIff(env, s, u, requested, code);
    assert requested.Some? ==> requested.value == TotpKind || requested.value == EmailKind;
  }

  /** A recognised code opens, whatever reads failed. */
  lemma RecognisedOpens(env: Env, s: State, u: UserId, requested: Option<Kind>, code: string, f: VerifyFaults)
    requires Recognise(env, s, u, requested, code, f).Some?
    ensures Opens(env, s, u, requested, code)
  {
    TotpMatchIff(env, s, u, requested, code);
    assert requested.Some? ==> requested.value == TotpKind || requested.value == EmailKind;
  }

  /** With every read answered and the session issued: the second step succeeds exactly for a code that opens a live challenge of a usable account. */
  lemma VerifiedIff(env: Env, s: State, c: nat, requested: Option<Kind>, code: string, f: VerifyFaults)
    requires f == VerifyFaults(true, true, true, true, true, true, true)
    ensures VerifyVerdict(env, s, c, requested, code, f).Verified? <==>
      exists u :: Challenges(s, c, u, requested) && Opens(env, s, u, requested, code) && u in s.usable
    ensures VerifyVerdict(env, s, c, requested, code, f).NotUsable? <==>
      exists u :: Challenges(s, c, u, requested) && Opens(env, s, u, requested, code) && u !in s.usable
  {
    assert requested.Some? ==> requested.value == TotpKind || requested.value == EmailKind;
    if c in s.challenges {
      var u := s.challenges[c].user;
      RecognisedIff(env, s, u, requested, code, f);
      assert Challenges(s, c, u, requested) <==> VerifyVerdict(env, s, c, requested, code, f).Proceeds();
    }
  }

  // ----- sessions through a challenge, over runs -----

  /** Whatever reads fail, a session through a challenge is issued only to a usable account, for a code that opens it. */
  lemma IssuedThroughChallenge(env: Env, s: State, call: Call, j: nat)
    requires |s.log| <= j < |Apply(env, s, call).log| && Apply(env, s, call).log[j].SessionByChallenge?
    ensures
      var e := Apply(env, s, call).log[j];
      && call.CVerify? && call.challenge == e.challenge
      && Challenges(s, e.challenge, e.user, call.requested) && Opens(env, s, e.user, call.requested, call.code) && e.user in s.usable
      && call.verify.methods && call.verify.account && call.verify.issue
  {
    CallAppends(env, s, call);
    var e := Apply(env, s, call).log[j];
    assert Appended(env, s, call)[j - |s.log|] == e;
    if call.CVerify? {
      RecognisedOpens(env, s, s.challenges[call.challenge].user, call.requested, call.code, call.verify);
      assert call.requested.Some? ==> call.requested.value == TotpKind || call.requested.value == EmailKind;
    }
  }

  /** Where a challenge comes from: a login with the right password that found a factor. */
  lemma {:induction false} ChallengeOrigin(env: Env, s: State, calls: seq<Call>, c: nat) returns (i: nat)
    requires Initial(s) && c in Run(env, s, calls).challenges
    ensures i < |calls|
    ensures
      var x, ch := Run(env, s, calls[..i]), Run(env, s, calls).challenges[c];
      && calls[i].CLogin? && calls[i].user == ch.user && calls[i].passwordOk && calls[i].login.totp && calls[i].login.email
      && ch.user in x.usable && (HasFactor(x, ch.user, TotpKind) || HasFactor(x, ch.user, EmailKind))
      && c == x.next && ch.exp == x.clock + 300
  {
    assert calls == [] ==> Run(env, s, calls) == s;
    var n := |calls| - 1;
    var x := Run(env, s, calls[..n]);
    ChallengeStep(env, x, calls[n], c);
    if c in x.challenges && Run(env, s, calls).challenges[c] == x.challenges[c] {
      i := ChallengeOrigin(env, s, calls[..n], c);
      assert calls[..n][..i] == calls[..i];
    } else {
      i := n;
    }
  }

  lemma ChallengeStep(env: Env, s: State, call: Call, c: nat)
    requires c in Apply(env, s, call).challenges
    ensures
      var ch := Apply(env, s, call).challenges[c];
      || (c in s.challenges && s.challenges[c] == ch)
      || (&& call.CLogin? && call.user == ch.user && call.passwordOk && call.login.totp && call.login.email
          && ch.user in s.usable && (HasFactor(s, ch.user, TotpKind) || HasFactor(s, ch.user, EmailKind))
          && c == s.next && ch.exp == s.clock + 300)
  {
    match call
    case CConfirmTotp(_, _, _, _) => assert Apply(env, s, call).challenges == s.challenges;
    case CConfirmEmail(_, _, _, _) => assert Apply(env, s, call).challenges == s.challenges;
    case _ =>
  }

  /**
   * Over whole runs, for every session through a challenge at any position of
   * the log: it was put there by a second step of a usable account whose live
   * challenge was answered with a TOTP code, the emailed code or a recovery
   * code, and the challenge had been issued less than five minutes before by a
   * login of that user with the right password, when the account had a factor.
   */
  lemma ChallengeSessionsAreEarned(env: Env, s: State, calls: seq<Call>, j: nat) returns (i: nat, k: nat)
    requires Initial(s) && j < |Run(env, s, calls).log| && Run(env, s, calls).log[j].SessionByChallenge?
    ensures i < k < |calls|
    ensures
      var e, x, y := Run(env, s, calls).log[j], Run(env, s, calls[..k]), Run(env, s, calls[..i]);
      && |x.log| <= j < |Apply(env, x, calls[k]).log|
      && calls[k].CVerify? && calls[k].challenge == e.challenge
      && Challenges(x, e.challenge, e.user, calls[k].requested) && Opens(env, x, e.user, calls[k].requested, calls[k].code)
      && e.user in x.usable && calls[k].verify.methods && calls[k].verify.account && calls[k].verify.issue
      && calls[i].CLogin? && calls[i].user == e.user && calls[i].passwordOk && e.challenge == y.next
      && (HasFactor(y, e.user, TotpKind) || HasFactor(y, e.user, EmailKind)) && x.clock < y.clock + 300
  {
    k := SecondStepOf(env, s, calls, j);
    i := ChallengeOrigin(env, s, calls[..k], Run(env, s, calls).log[j].challenge);
    assert calls[..k][..i] == calls[..i];
  }

  lemma {:induction false} SecondStepOf(env: Env, s: State, calls: seq<Call>, j: nat) returns (k: nat)
    requires Initial(s) && j < |Run(env, s, calls).log| && Run(env, s, calls).log[j].SessionByChallenge?
    ensures k < |calls|
    ensures
      var e, x := Run(env, s, calls).log[j], Run(env, s, calls[..k]);
      && |x.log| <= j < |Apply(env, x, calls[k]).log|
      && calls[k].CVerify? && calls[k].challenge == e.challenge
      && Challenges(x, e.challenge, e.user, calls[k].requested) && Opens(env, x, e.user, calls[k].requested, calls[k].code)
      && e.user in x.usable && calls[k].verify.methods && calls[k].verify.account && calls[k].verify.issue
  {
    assert calls == [] ==> Run(env, s, calls).log == [];
    var n := |calls| - 1;
    var x := Run(env, s, calls[..n]);
    CallAppends(env, x, calls[n]);
    if j < |x.log| {
      k := SecondStepOf(env, s, calls[..n], j);
      assert calls[..n][..k] == calls[..k];
    } else {
      IssuedThroughChallenge(env, x, calls[n], j);
      k := n;
    }
  }

  // ----- the factor calls -----

  /** Enrolment starts exactly if no such factor is active, keeps the id of an abandoned one, and forgets its secret and steps. */
  lemma EnrollEffect(s: State, k: Key, w: Write)
    ensures
      var s', active := Enroll(s, k, w), k in s.factors && s.factors[k].enabled;
      if active || !w.Took() then s'.factors == s.factors
      else
        && k in s'.factors && s'.factors == s.factors[k := s'.factors[k]]
        && !s'.factors[k].verified && !s'.factors[k].enabled && s'.factors[k].lastStep == None && s'.factors[k].created == s.clock
        && (k in s.factors ==> s'.factors[k].id == s.factors[k].id)
        && s'.factors[k].secret >= s.next
    ensures Enroll(s, k, w).recovery == s.recovery && Enroll(s, k, w).challenges == s.challenges && Enroll(s, k, w).emailed == s.emailed
  {
  }

  /** Turning a factor off needs the password, and takes the row and its recovery rows and nothing else. */
  lemma DisableEffect(env: Env, s: State, k: Key, passwordOk: bool, w: Write)
    ensures
      var s' := Apply(env, s, CDisable(k, passwordOk, w));
      if passwordOk && w.Took() && k in s.factors then
        && s' == s.(factors := s.factors - {k}, recovery := s'.recovery)
        && (forall h :: h in s'.recovery <==> h in s.recovery && s.recovery[h].factor != s.factors[k].id)
        && (forall h | h in s'.recovery :: s'.recovery[h] == s.recovery[h])
      else s' == s
  {
  }

  /** The cleanup job removes a factor exactly if it was never confirmed and is over two hours old. */
  lemma StaleEffect(env: Env, s: State, k: Key)
    ensures
      k in s.factors ==>
        (k in Apply(env, s, CRemoveStale(k)).factors <==> s.factors[k].verified || s.factors[k].created >= s.clock - 7200)
    ensures forall x | x in s.factors && x != k ::
      x in Apply(env, s, CRemoveStale(k)).factors && Apply(env, s, CRemoveStale(k)).factors[x] == s.factors[x]
  {
  }

  /** A login code is mailed exactly for a live challenge of an account with the email factor, and not within a minute of the last one still stored. */
  lemma SendEffect(s: State, c: nat, code: string)
    ensures
      var s' := SendCode(s, c, code);
      if c in s.challenges && s.clock < s.challenges[c].exp && HasFactor(s, s.challenges[c].user, EmailKind)
         && !(s.challenges[c].user in s.emailed && s.emailed[s.challenges[c].user].slot.Stored?
              && s.clock < s.emailed[s.challenges[c].user].slot.keyExp
              && s.clock - s.emailed[s.challenges[c].user].slot.meta.createdAt < 60)
      then
        s'.emailed == s.emailed[s.challenges[c].user :=
          Emailed(s.next, OneTimeCode.Stored(OneTimeCode.Meta(code, s.clock, s.clock + 600, 0, 5), s.clock + 600))]
      else s' == s
  {
  }

  /** The hashes are new to the table and pairwise different. */
  ghost predicate FreshHashes(m: map<Hash, Recovery>, hashes: seq<Hash>) {
    && (forall i | 0 <= i < |hashes| :: hashes[i] !in m)
    && (forall i, j | 0 <= i < j < |hashes| :: hashes[i] != hashes[j])
  }

  lemma {:induction false} InsertIff(m: map<Hash, Recovery>, factor: nat, hashes: seq<Hash>, id: nat)
    ensures InsertCodes(m, factor, hashes, id).Some? <==> FreshHashes(m, hashes)
    ensures InsertCodes(m, factor, hashes, id).Some? ==>
      forall h :: h in InsertCodes(m, factor, hashes, id).value <==> h in m || h in hashes
  {
    if hashes != [] {
      var n := |hashes| - 1;
      InsertIff(m, factor, hashes[..n], id);
      assert hashes == hashes[..n] + [hashes[n]];
      if FreshHashes(m, hashes) { assert hashes[n] !in hashes[..n]; }
    }
  }

  /**
   * A TOTP enrolment is confirmed exactly if a pending factor exists, the code
   * is one of its secret's around now, the recovery hashes are new, and the
   * transaction took effect; the factor is then active with that step used up.
   */
  lemma ConfirmIff(env: Env, s: State, u: UserId, code: string, hashes: seq<Hash>, tx: Tx)
    ensures
      var k, s' := Key(u, TotpKind), ConfirmTotp(env, s, u, code, hashes, tx);
      s'.factors != s.factors <==>
        && k in s.factors && !s.factors[k].verified && tx.Took()
        && Totp.Accept(env.gen, s.factors[k].secret, code, LastStepOf(s.factors[k]), s.clock).Some?
        && FreshHashes(DeleteCodes(s.recovery, s.factors[k].id), hashes)
    ensures
      var k, s' := Key(u, TotpKind), ConfirmTotp(env, s, u, code, hashes, tx);
      s'.factors != s.factors ==>
        s'.factors == s.factors[k := s.factors[k].(verified := true, enabled := true,
          lastStep := Totp.Accept(env.gen, s.factors[k].secret, code, LastStepOf(s.factors[k]), s.clock))]
  {
    var k, s' := Key(u, TotpKind), ConfirmTotp(env, s, u, code, hashes, tx);
    if k in s.factors {
      InsertIff(DeleteCodes(s.recovery, s.factors[k].id), s.factors[k].id, hashes, s.next);
      assert k in s'.factors && s'.factors[k].verified != s.factors[k].verified ==> s'.factors != s.factors;
    }
  }

  /** The same for the email factor, whose code was checked before. */
  lemma ConfirmEmailIff(s: State, u: UserId, codeOk: bool, hashes: seq<Hash>, tx: Tx)
    ensures
      var k, s' := Key(u, EmailKind), ConfirmEmail(s, u, codeOk, hashes, tx);
      s'.factors != s.factors <==>
        k in s.factors && !s.factors[k].verified && codeOk && tx.Took() && FreshHashes(DeleteCodes(s.recovery, s.factors[k].id), hashes)
    ensures
      var k, s' := Key(u, EmailKind), ConfirmEmail(s, u, codeOk, hashes, tx);
      s'.factors != s.factors ==> s'.factors == s.factors[k := s.factors[k].(verified := true, enabled := true)]
  {
    var k, s' := Key(u, EmailKind), ConfirmEmail(s, u, codeOk, hashes, tx);
    if k in s.factors {
      InsertIff(DeleteCodes(s.recovery, s.factors[k].id), s.factors[k].id, hashes, s.next);
      assert k in s'.factors && s'.factors[k].verified != s.factors[k].verified ==> s'.factors != s.factors;
    }
  }

  /** The challenge is over exactly once its code was accepted for a usable account, whether or not the session could then be issued. */
  lemma ChallengeEndsIff(env: Env, s: State, c: nat, requested: Option<Kind>, code: string, f: VerifyFaults)
    requires c in s.challenges && f.methods && f.totp && f.email && f.stored && f.recovery && f.account
    ensures
      var u := s.challenges[c].user;
      Verify(env, s, c, requested, code, f).challenges ==
      if Challenges(s, c, u, requested) && Opens(env, s, u, requested, code) && u in s.usable then s.challenges - {c} else s.challenges
  {
    var u := s.challenges[c].user;
    assert requested.Some? ==> requested.value == TotpKind || requested.value == EmailKind;
    RecognisedIff(env, s, u, requested, code, f);
    assert Challenges(s, c, u, requested) <==> VerifyVerdict(env, s, c, requested, code, f).Proceeds();
  }
}
