/** Properties of whole runs of service calls, for every outcome of every store access. */
module SessionRuns {
  import opened Base
  import opened Sessions

  // ----- what one call can do to the stores -----

  /** No call but sign-up, login and refresh adds anything: keys may go, rows may become revoked. */
  ghost predicate Shrinks(s: State, s': State) {
    && s.next <= s'.next && s.clock <= s'.clock && s'.signed == s.signed
    && (forall sid | sid in s'.refreshKeys :: sid in s.refreshKeys && s'.refreshKeys[sid] == s.refreshKeys[sid])
    && (forall sid | sid in s'.sessionKeys :: sid in s.sessionKeys && s'.sessionKeys[sid] == s.sessionKeys[sid])
    && s'.rows.Keys == s.rows.Keys
    && (forall sid | sid in s.rows :: s'.rows[sid] == s.rows[sid] || s'.rows[sid] == s.rows[sid].(revoked := true))
  }

  /** `m'` is `m` with the entry at `k` set to `v`, removed, or left alone. */
  predicate Patched<T(==)>(m: map<Id, T>, m': map<Id, T>, k: Id, v: T) {
    m' == m || m' == m[k := v] || m' == m - {k}
  }

  /** Sign-up, login and refresh put the fresh secret `h` into at most one session, a new one or one whose token matched. */
  ghost predicate Writes(s: State, s': State, sid: Id, h: Secret) {
    && s.next <= h < s'.next && sid < s'.next && s'.clock == s.clock
    && (sid >= s.next || (LiveRefresh(s, sid) && sid in s.rows && !s.rows[sid].revoked))
    && Patched(s.refreshKeys, s'.refreshKeys, sid, RefreshKey(h, s.clock + REFRESH_TTL))
    && Patched(s.sessionKeys, s'.sessionKeys, sid, s.clock + ACCESS_TTL)
    && (s'.rows == s.rows || (sid in s'.rows && s'.rows[sid].hash == h && s'.rows == s.rows[sid := s'.rows[sid]]))
  }

  function Touched(s: State, c: Call): (Id, Secret) {
    match c
    case CSignUp(_, _, _) => (s.next + 1, s.next + 2)
    case CLogin(_, _) => (s.next, s.next + 1)
    case CRefresh(sid, _, _, _) => (sid, s.next)
    case _ => (0, 0)
  }

  lemma IssueWrites(s: State, u: Id, f: IssueFaults)
    requires u in s.users
    ensures Writes(s, Issue(s, u, f), s.next, s.next + 1)
  {
  }

  lemma RefreshEffect(s: State, sid: Id, u: Id, tok: Secret, f: RefreshFaults)
    requires sid in s.rows ==> sid < s.next
    ensures
      var s' := Refresh(s, sid, u, tok, f);
      Shrinks(s, s') || Writes(s, s', sid, s.next)
  {
  }

  lemma BulkShrinks(s: State, users: map<Id, User>, resets: map<Id, Reset>, u: Id, keep: set<Id>, f: BulkFaults)
    ensures Shrinks(s, Bulk(s, users, resets, u, keep, f))
  {
  }

  lemma BulkCallShrinks(s: State, c: Call)
    requires c.CSetStatus? || c.CForceLogout? || c.CDeleteUser? || c.CResetPassword? || c.CChangePassword?
    ensures Shrinks(s, Apply(s, c))
  {
    match c
    case CSetStatus(a, t, act, f) =>
      if t in s.users { BulkShrinks(s, UpdateLive(s.users, t, s.users[t].(status := act.Target())), s.resets, t, {}, f); }
    case CForceLogout(a, t, f) => BulkShrinks(s, s.users, s.resets, t, {}, f);
    case CDeleteUser(a, t, f) =>
      if t in s.users { BulkShrinks(s, UpdateLive(s.users, t, s.users[t].(deleted := true)), s.resets, t, {}, f); }
    case CResetPassword(id, tok, p, k, f) =>
      if ResetRefusal(s, id, tok, k).None? {
        var u := s.resets[id].user;
        BulkShrinks(s, WithPassword(s, u, p), s.resets[id := s.resets[id].(used := true)], u, {}, f);
      }
    case CChangePassword(u, sid, _, p, _, f) =>
      if u in s.users { BulkShrinks(s, WithPassword(s, u, p), s.resets, u, {sid}, f); }
  }

  lemma PlainCallShrinks(s: State, c: Call)
    requires c.CTick? || c.CLogout? || c.CChangeRole? || c.CRequestReset? || c.CRevokeExpired? || c.CRevokeOld?
    ensures Shrinks(s, Apply(s, c))
  {
  }

  lemma CallEffect(s: State, c: Call)
    requires WellFormed(s)
    ensures Shrinks(s, Apply(s, c)) || Writes(s, Apply(s, c), Touched(s, c).0, Touched(s, c).1)
  {
    match c
    case CSignUp(p, tx, f) => if tx.Committed? { IssueWrites(NewUser(s, p), s.next, f); }
    case CLogin(u, f) => if u in s.users { IssueWrites(s, u, f); }
    case CRefresh(sid, u, tok, f) =>
      assert sid in s.rows ==> Holds(s, sid, s.rows[sid].hash);
      RefreshEffect(s, sid, u, tok, f);
    case CSetStatus(_, _, _, _) => BulkCallShrinks(s, c);
    case CForceLogout(_, _, _) => BulkCallShrinks(s, c);
    case CDeleteUser(_, _, _) => BulkCallShrinks(s, c);
    case CResetPassword(_, _, _, _, _) => BulkCallShrinks(s, c);
    case CChangePassword(_, _, _, _, _, _) => BulkCallShrinks(s, c);
    case _ => PlainCallShrinks(s, c);
  }

  // ----- secrets -----

  /** Session `sid` is tied to secret `h`, in the cache or in its row. */
  predicate Holds(s: State, sid: Id, h: Secret) {
    || (sid in s.refreshKeys && s.refreshKeys[sid].hash == h)
    || (sid in s.rows && s.rows[sid].hash == h)
  }

  /** Ids and secrets in use come from the supply, and no two sessions share a secret. */
  ghost predicate WellFormed(s: State) {
    && (forall sid: Id, h: Secret | Holds(s, sid, h) :: sid < s.next && h < s.next)
    && (forall a: Id, b: Id, h: Secret | Holds(s, a, h) && Holds(s, b, h) :: a == b)
  }

  lemma HoldsAfter(s: State, c: Call, sid: Id, h: Secret)
    requires WellFormed(s) && Holds(Apply(s, c), sid, h)
    ensures Holds(s, sid, h) || (sid == Touched(s, c).0 < Apply(s, c).next && s.next <= h == Touched(s, c).1 < Apply(s, c).next)
  {
    CallEffect(s, c);
  }

  lemma CallKeepsWellFormed(s: State, c: Call)
    requires WellFormed(s)
    ensures WellFormed(Apply(s, c)) && s.next <= Apply(s, c).next
  {
    CallEffect(s, c);
    forall sid: Id, h: Secret | Holds(Apply(s, c), sid, h)
      ensures Holds(s, sid, h) || (sid == Touched(s, c).0 < Apply(s, c).next && s.next <= h == Touched(s, c).1 < Apply(s, c).next)
    {
      HoldsAfter(s, c, sid, h);
    }
  }

  lemma {:induction false} WellFormedAt(s: State, calls: seq<Call>, k: nat)
    requires Initial(s) && k <= |calls|
    ensures WellFormed(At(s, calls, k))
  {
    if k > 0 {
      WellFormedAt(s, calls, k - 1);
      CallKeepsWellFormed(At(s, calls, k - 1), calls[k - 1]);
    }
  }

  // ----- a refresh token is exchanged at most once -----

  /** The k-th call exchanged refresh token `tok`. */
  ghost predicate Exchanges(s: State, calls: seq<Call>, k: nat, tok: Secret) {
    && k < |calls| && calls[k].CRefresh? && calls[k].tok == tok
    && RefreshReply(At(s, calls, k), calls[k].sid, calls[k].user, tok, calls[k].refresh).Issued?
  }

  /** No session is tied to `tok` any more. */
  ghost predicate Burned(s: State, tok: Secret) {
    tok < s.next && forall sid: Id :: !Holds(s, sid, tok)
  }

  lemma ExchangeBurns(s: State, c: Call)
    requires WellFormed(s) && c.CRefresh? && RefreshReply(s, c.sid, c.user, c.tok, c.refresh).Issued?
    ensures Burned(Apply(s, c), c.tok)
  {
    assert Holds(s, c.sid, c.tok);
    CallKeepsWellFormed(s, c);
    forall sid: Id ensures !Holds(Apply(s, c), sid, c.tok) {
      if Holds(Apply(s, c), sid, c.tok) { HoldsAfter(s, c, sid, c.tok); }
    }
  }

  lemma {:induction false} BurnedForever(s: State, calls: seq<Call>, i: nat, j: nat, tok: Secret)
    requires Initial(s) && i <= j <= |calls| && Burned(At(s, calls, i), tok)
    ensures Burned(At(s, calls, j), tok)
    decreases j
  {
    if i < j {
      BurnedForever(s, calls, i, j - 1, tok);
      var x := At(s, calls, j - 1);
      WellFormedAt(s, calls, j - 1);
      CallKeepsWellFormed(x, calls[j - 1]);
      forall sid: Id ensures !Holds(At(s, calls, j), sid, tok) {
        if Holds(At(s, calls, j), sid, tok) { HoldsAfter(x, calls[j - 1], sid, tok); }
      }
    }
  }

  /** Rotation over whole runs: whatever the stores did, no refresh token buys new tokens twice. */
  lemma ExchangedAtMostOnce(s: State, calls: seq<Call>, i: nat, j: nat, tok: Secret)
    requires Initial(s) && i < j && Exchanges(s, calls, i, tok)
    ensures !Exchanges(s, calls, j, tok)
  {
    WellFormedAt(s, calls, i);
    ExchangeBurns(At(s, calls, i), calls[i]);
    if j < |calls| {
      BurnedForever(s, calls, i + 1, j, tok);
      assert calls[j].CRefresh? ==> !Holds(At(s, calls, j), calls[j].sid, tok);
    }
  }

  // ----- reuse detection -----

  /** The session can never be refreshed again: no live key, no row, or a revoked row. */
  ghost predicate Dead(s: State, sid: Id) {
    sid < s.next && (!LiveRefresh(s, sid) || sid !in s.rows || s.rows[sid].revoked)
  }

  lemma {:induction false} DeadForever(s: State, calls: seq<Call>, i: nat, j: nat, sid: Id)
    requires Initial(s) && i <= j <= |calls| && Dead(At(s, calls, i), sid)
    ensures Dead(At(s, calls, j), sid)
    decreases j
  {
    if i < j {
      DeadForever(s, calls, i, j - 1, sid);
      WellFormedAt(s, calls, j - 1);
      CallEffect(At(s, calls, j - 1), calls[j - 1]);
    }
  }

  /** The k-th call compared a wrong token with the session's live key, and one of the two revocation writes took effect. */
  ghost predicate DetectsReuse(s: State, calls: seq<Call>, k: nat) {
    && k < |calls| && calls[k].CRefresh?
    && Judge(At(s, calls, k), calls[k].sid, calls[k].user, calls[k].tok, calls[k].refresh).Revoke?
    && (calls[k].refresh.delKeys.Took() || calls[k].refresh.revoke.Took())
  }

  /** After a detected mismatch no later call refreshes that session, with any token. */
  lemma ReuseKillsSession(s: State, calls: seq<Call>, i: nat, j: nat, tok: Secret)
    requires Initial(s) && i < j && DetectsReuse(s, calls, i)
    requires Exchanges(s, calls, j, tok)
    ensures calls[j].sid != calls[i].sid
  {
    var sid := calls[i].sid;
    WellFormedAt(s, calls, i);
    assert Holds(At(s, calls, i), sid, At(s, calls, i).refreshKeys[sid].hash);
    assert Dead(At(s, calls, i + 1), sid);
    DeadForever(s, calls, i + 1, j, sid);
  }

  /**
   * A replayed token is always such a mismatch: once `tok` has been exchanged,
   * presenting it again to a session that still has a live key is judged
   * `Revoke`, so with one effective write the session is over for everybody.
   */
  lemma ReplayIsDetected(s: State, calls: seq<Call>, i: nat, j: nat, tok: Secret)
    requires Initial(s) && i < j < |calls| && Exchanges(s, calls, i, tok)
    requires calls[j].CRefresh? && calls[j].tok == tok
    requires calls[j].refresh.getKey && LiveRefresh(At(s, calls, j), calls[j].sid)
    requires calls[j].refresh.delKeys.Took() || calls[j].refresh.revoke.Took()
    ensures DetectsReuse(s, calls, j)
  {
    WellFormedAt(s, calls, i);
    ExchangeBurns(At(s, calls, i), calls[i]);
    BurnedForever(s, calls, i + 1, j, tok);
    assert !Holds(At(s, calls, j), calls[j].sid, tok);
  }
}
