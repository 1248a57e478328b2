/** What every call, with its transaction failing at any statement, keeps true of factors and recovery codes. */
module MfaFactors {
  import opened Base
  import opened Mfa

  /** The recovery rows of a factor, used or not. */
  function RowsOf(m: map<Hash, Recovery>, factor: nat): set<Hash> {
    set h | h in m && m[h].factor == factor
  }

  /** A factor is either pending, with no recovery row and no step, or active, with the configured number of rows. */
  ghost predicate FactorOk(env: Env, s: State, k: Key)
    requires k in s.factors
  {
    var f := s.factors[k];
    && f.id < s.next
    && f.verified == f.enabled
    && (f.verified ==> |RowsOf(s.recovery, f.id)| == env.count)
    && (!f.verified ==> RowsOf(s.recovery, f.id) == {} && f.lastStep == None)
  }

  ghost predicate FactorInv(env: Env, s: State) {
    && (forall k | k in s.factors :: FactorOk(env, s, k))
    && (forall a, b | a in s.factors && b in s.factors && s.factors[a].id == s.factors[b].id :: a == b)
  }

  lemma RowsOfDeleted(m: map<Hash, Recovery>, factor: nat, other: nat)
    ensures RowsOf(DeleteCodes(m, factor), other) == if other == factor then {} else RowsOf(m, other)
  {
  }

  lemma {:induction false} RowsOfInserted(m: map<Hash, Recovery>, factor: nat, hashes: seq<Hash>, id: nat, other: nat)
    requires InsertCodes(m, factor, hashes, id).Some?
    ensures
      var m' := InsertCodes(m, factor, hashes, id).value;
      if other == factor then |RowsOf(m', factor)| == |RowsOf(m, factor)| + |hashes| else RowsOf(m', other) == RowsOf(m, other)
  {
    if hashes != [] {
      var n := |hashes| - 1;
      RowsOfInserted(m, factor, hashes[..n], id, other);
      var m1 := InsertCodes(m, factor, hashes[..n], id).value;
      var m' := InsertCodes(m, factor, hashes, id).value;
      assert RowsOf(m', other) == if other == factor then RowsOf(m1, other) + {hashes[n]} else RowsOf(m1, other);
    }
  }

  lemma CompleteKeepsInv(env: Env, s: State, k: Key, step: Option<int>, hashes: seq<Hash>, tx: Tx)
    requires FactorInv(env, s) && k in s.factors && |hashes| == env.count
    ensures FactorInv(env, Complete(s, k, step, hashes, tx))
  {
    var s', f := Complete(s, k, step, hashes, tx), s.factors[k];
    var cleared := DeleteCodes(s.recovery, f.id);
    forall x | x in s'.factors ensures FactorOk(env, s', x) {
      assert FactorOk(env, s, x);
      if tx.Took() && InsertCodes(cleared, f.id, hashes, s.next).Some? {
        RowsOfDeleted(s.recovery, f.id, s.factors[x].id);
        RowsOfInserted(cleared, f.id, hashes, s.next, s.factors[x].id);
        assert RowsOf(cleared, f.id) == {};
      }
    }
  }

  lemma RemoveKeepsInv(env: Env, s: State, k: Key)
    requires FactorInv(env, s) && FreshOwners(s)
    ensures FactorInv(env, Remove(s, k)) && FreshOwners(Remove(s, k))
  {
    var s' := Remove(s, k);
    forall x | x in s'.factors ensures FactorOk(env, s', x) {
      assert FactorOk(env, s, x);
      if k in s.factors { RowsOfDeleted(s.recovery, s.factors[k].id, s.factors[x].id); }
    }
  }

  lemma EnrollKeepsInv(env: Env, s: State, k: Key, w: Write)
    requires FactorInv(env, s)
    requires FreshOwners(s)
    ensures FactorInv(env, Enroll(s, k, w)) && FreshOwners(Enroll(s, k, w))
  {
    var s' := Enroll(s, k, w);
    if s'.factors == s.factors {
      FrameKeepsInv(env, s, s');
    } else {
      PendingKeepsInv(env, s, k, s');
    }
  }

  lemma PendingKeepsInv(env: Env, s: State, k: Key, s': State)
    requires FactorInv(env, s) && FreshOwners(s) && (k in s.factors ==> !s.factors[k].enabled)
    requires s'.factors == s.factors[k := Pending(s, k)] && s'.recovery == s.recovery && s'.next == s.next + 2
    ensures FactorInv(env, s') && FreshOwners(s')
  {
    assert RowsOf(s.recovery, s.next) == {};
    forall x | x in s'.factors ensures FactorOk(env, s', x) {
      if x in s.factors { assert FactorOk(env, s, x); }
    }
    forall x | x in s.factors ensures s.factors[x].id < s.next { assert FactorOk(env, s, x); }
  }

  lemma AfterKeepsOk(env: Env, s: State, s': State, u: UserId, h: Hash, cred: Option<Credential>, k: Key)
    requires k in s.factors && FactorOk(env, s, k) && s'.next == s.next
    requires s'.factors == FactorsAfter(s, u, cred) && s'.recovery == RecoveryAfter(s, h, cred)
    requires cred.Some? && cred.value.TotpStep? ==> Enabled(s, u, TotpKind)
    ensures FactorOk(env, s', k) && s'.factors[k].id == s.factors[k].id
  {
    assert RowsOf(s'.recovery, s.factors[k].id) == RowsOf(s.recovery, s.factors[k].id);
  }

  /** Marking a credential used touches no count: a used recovery row is kept, a step is recorded only on an active factor. */
  lemma VerifyKeepsInv(env: Env, s: State, c: nat, requested: Option<Kind>, code: string, f: VerifyFaults)
    requires FactorInv(env, s) && FreshOwners(s)
    ensures FactorInv(env, Verify(env, s, c, requested, code, f)) && FreshOwners(Verify(env, s, c, requested, code, f))
  {
    var s', v := Verify(env, s, c, requested, code, f), VerifyVerdict(env, s, c, requested, code, f);
    if v.Proceeds() {
      var u := s.challenges[c].user;
      var cred := Recognise(env, s, u, requested, code, f);
      forall x | x in s'.factors ensures FactorOk(env, s', x) && s'.factors[x].id == s.factors[x].id {
        AfterKeepsOk(env, s, s', u, env.hash(code), cred, x);
      }
    }
  }

  lemma {:induction false} InsertedOwners(m: map<Hash, Recovery>, factor: nat, hashes: seq<Hash>, id: nat, h: Hash)
    requires InsertCodes(m, factor, hashes, id).Some?
    ensures
      var m' := InsertCodes(m, factor, hashes, id).value;
      && (h in m ==> h in m' && m'[h] == m[h])
      && (h in m' && h !in m ==> m'[h].factor == factor && id <= m'[h].id < id + |hashes| && !m'[h].used)
  {
    if hashes != [] { InsertedOwners(m, factor, hashes[..|hashes| - 1], id, h); }
  }

  /** Recovery rows name factors from the supply, so a factor yet to be created owns none. */
  ghost predicate FreshOwners(s: State) { forall h | h in s.recovery :: s.recovery[h].factor < s.next }

  lemma CompleteKeepsOwners(s: State, k: Key, step: Option<int>, hashes: seq<Hash>, tx: Tx)
    requires FreshOwners(s) && k in s.factors && s.factors[k].id < s.next
    ensures FreshOwners(Complete(s, k, step, hashes, tx))
  {
    var s', f := Complete(s, k, step, hashes, tx), s.factors[k];
    var cleared := DeleteCodes(s.recovery, f.id);
    if tx.Took() && InsertCodes(cleared, f.id, hashes, s.next).Some? {
      forall h | h in s'.recovery ensures s'.recovery[h].factor < s'.next {
        InsertedOwners(cleared, f.id, hashes, s.next, h);
      }
    }
  }

  lemma ConfirmKeepsInv(env: Env, s: State, c: Call)
    requires FactorInv(env, s) && FreshOwners(s) && WellSized(env, c) && (c.CConfirmTotp? || c.CConfirmEmail?)
    ensures FactorInv(env, Apply(env, s, c)) && FreshOwners(Apply(env, s, c))
  {
    var k := Key(c.user, if c.CConfirmTotp? then TotpKind else EmailKind);
    if k in s.factors {
      assert FactorOk(env, s, k);
      var step := if c.CConfirmTotp? then Totp.Accept(env.gen, s.factors[k].secret, c.code, LastStepOf(s.factors[k]), s.clock) else None;
      CompleteKeepsInv(env, s, k, step, c.hashes, c.tx);
      CompleteKeepsOwners(s, k, step, c.hashes, c.tx);
    }
  }

  lemma CallKeepsInv(env: Env, s: State, c: Call)
    requires FactorInv(env, s) && FreshOwners(s) && WellSized(env, c)
    ensures FactorInv(env, Apply(env, s, c)) && FreshOwners(Apply(env, s, c))
  {
    match c
    case CVerify(ch, r, code, f) => VerifyKeepsInv(env, s, ch, r, code, f);
    case CEnroll(k, w) => EnrollKeepsInv(env, s, k, w);
    case CConfirmTotp(_, _, _, _) => ConfirmKeepsInv(env, s, c);
    case CConfirmEmail(_, _, _, _) => ConfirmKeepsInv(env, s, c);
    case CDisable(k, p, w) => RemoveKeepsInv(env, s, k);
    case CRemoveStale(k) => RemoveKeepsInv(env, s, k);
    case _ =>
      OtherFrames(env, s, c);
      FrameKeepsInv(env, s, Apply(env, s, c));
  }

  lemma OtherFrames(env: Env, s: State, c: Call)
    requires c.CTick? || c.CSetUsable? || c.CLogin? || c.CSendCode?
    ensures var s' := Apply(env, s, c); s'.factors == s.factors && s'.recovery == s.recovery && s.next <= s'.next
  {
  }

  lemma FrameKeepsInv(env: Env, s: State, s': State)
    requires FactorInv(env, s) && FreshOwners(s) && s'.factors == s.factors && s'.recovery == s.recovery && s.next <= s'.next
    ensures FactorInv(env, s') && FreshOwners(s')
  {
    forall x | x in s.factors ensures FactorOk(env, s', x) { assert FactorOk(env, s, x); }
  }

  /** In every reachable state: verified = enabled, an active factor owns exactly the configured number of recovery rows, a pending one none. */
  lemma {:induction false} FactorsAlwaysOk(env: Env, s: State, calls: seq<Call>)
    requires Initial(s) && forall c | c in calls :: WellSized(env, c)
    ensures FactorInv(env, Run(env, s, calls)) && FreshOwners(Run(env, s, calls))
  {
    if calls != [] {
      FactorsAlwaysOk(env, s, calls[..|calls| - 1]);
      CallKeepsInv(env, Run(env, s, calls[..|calls| - 1]), calls[|calls| - 1]);
    }
  }
}
