/**
 * Runs in which every store access succeeds: the Redis cache agrees with the
 * Postgres rows, and bulk revocations have exactly their intended effect.
 */
module SessionAgreement {
  import opened Base
  import opened Sessions

  ghost predicate CleanIssue(f: IssueFaults) { f.Returned() }

  ghost predicate CleanBulk(f: BulkFaults) { f.list && f.tx.Committed? && f.lost == {} }

  /** Every write of the call succeeds, and its listing. The 30-day job is treated separately below. */
  ghost predicate Clean(c: Call) {
    match c
    case CTick(_) => true
    case CSignUp(_, tx, f) => tx.Committed? && CleanIssue(f)
    case CLogin(_, f) => CleanIssue(f)
    case CRefresh(_, _, _, f) =>
      f.getKey && f.getRow && f.getUser && CleanIssue(f.issue) && f.delKeys.Acked() && f.revoke.Acked()
    case CLogout(_, d, r) => d.Acked() && r.Acked()
    case CSetStatus(_, _, _, f) => CleanBulk(f)
    case CForceLogout(_, _, f) => CleanBulk(f)
    case CDeleteUser(_, _, f) => CleanBulk(f)
    case CChangeRole(_, _, _, _, tx) => tx.Committed?
    case CRequestReset(_, _, w) => w.Acked()
    case CResetPassword(_, _, _, _, f) => CleanBulk(f)
    case CChangePassword(_, _, _, _, _, f) => CleanBulk(f)
    case CRevokeExpired => true
    case CRevokeOld => false
  }

  predicate Unrevoked(s: State, sid: Id) { sid in s.rows && !s.rows[sid].revoked }

  predicate RowUsable(s: State, sid: Id)
    requires sid in s.rows
  {
    s.rows[sid].user in s.users && Usable(s.users[s.rows[sid].user])
  }

  /** A live key implies an unrevoked row that outlives it, with the same refresh hash; an unrevoked row implies a usable user. */
  ghost predicate Agreement(s: State) {
    && (forall sid | LiveSession(s, sid) :: Unrevoked(s, sid) && s.sessionKeys[sid] <= s.rows[sid].expires)
    && (forall sid | LiveRefresh(s, sid) ::
          Unrevoked(s, sid) && s.refreshKeys[sid] == RefreshKey(s.rows[sid].hash, s.rows[sid].expires))
    && (forall sid | Unrevoked(s, sid) :: RowUsable(s, sid))
  }

  lemma IssueKeepsAgreement(s: State, u: Id, f: IssueFaults)
    requires Agreement(s) && u in s.users && Usable(s.users[u]) && CleanIssue(f)
    ensures Agreement(Issue(s, u, f))
  {
    forall x | Unrevoked(Issue(s, u, f), x) && x != s.next ensures RowUsable(Issue(s, u, f), x) {
      assert Unrevoked(s, x) && RowUsable(s, x);
    }
  }

  lemma RefreshKeepsAgreement(s: State, sid: Id, u: Id, tok: Secret, f: RefreshFaults)
    requires Agreement(s) && Clean(CRefresh(sid, u, tok, f))
    ensures Agreement(Refresh(s, sid, u, tok, f))
  {
    forall x | Unrevoked(Refresh(s, sid, u, tok, f), x) ensures RowUsable(Refresh(s, sid, u, tok, f), x) {
      assert Unrevoked(s, x) && RowUsable(s, x);
    }
  }

  /** A bulk revocation keeps agreement if it makes nobody unusable but possibly `u`, and `u` only if nothing is kept. */
  lemma BulkKeepsAgreement(s: State, users: map<Id, User>, resets: map<Id, Reset>, u: Id, keep: set<Id>, f: BulkFaults)
    requires Agreement(s) && CleanBulk(f)
    requires forall x | x in s.users && Usable(s.users[x]) && (x != u || keep != {}) :: x in users && Usable(users[x])
    ensures Agreement(Bulk(s, users, resets, u, keep, f))
  {
    var s' := Bulk(s, users, resets, u, keep, f);
    forall sid | Unrevoked(s', sid) ensures RowUsable(s', sid) {
      assert Unrevoked(s, sid) && RowUsable(s, sid);
    }
  }

  lemma BulkCallKeepsAgreement(s: State, c: Call)
    requires Agreement(s) && Clean(c)
    requires c.CForceLogout? || c.CDeleteUser? || c.CResetPassword? || c.CChangePassword?
    ensures Agreement(Apply(s, c))
  {
    match c
    case CForceLogout(a, t, f) => BulkKeepsAgreement(s, s.users, s.resets, t, {}, f);
    case CDeleteUser(a, t, f) =>
      if t in s.users {
        BulkKeepsAgreement(s, UpdateLive(s.users, t, s.users[t].(deleted := true)), s.resets, t, {}, f);
      }
    case CResetPassword(id, tok, p, k, f) =>
      if ResetRefusal(s, id, tok, k).None? {
        var u := s.resets[id].user;
        BulkKeepsAgreement(s, WithPassword(s, u, p), s.resets[id := s.resets[id].(used := true)], u, {}, f);
      }
    case CChangePassword(u, sid, _, p, _, f) =>
      if u in s.users { BulkKeepsAgreement(s, WithPassword(s, u, p), s.resets, u, {sid}, f); }
  }

  lemma CallKeepsAgreement(s: State, c: Call)
    requires Agreement(s) && Clean(c)
    ensures Agreement(Apply(s, c))
  {
    match c
    case CSignUp(p, _, f) =>
      assert Agreement(NewUser(s, p)) by {
        forall sid | Unrevoked(s, sid) ensures RowUsable(NewUser(s, p), sid) { assert RowUsable(s, sid); }
      }
      IssueKeepsAgreement(NewUser(s, p), s.next, f);
    case CLogin(u, f) => if LoginRefusal(s, u).None? { IssueKeepsAgreement(s, u, f); }
    case CRefresh(sid, u, tok, f) => RefreshKeepsAgreement(s, sid, u, tok, f);
    case CSetStatus(a, t, act, f) => if Refusal(s, a, t, f.loaded).None? { SetStatusKeepsAgreement(s, t, act, f); }
    case CForceLogout(_, _, _) => BulkCallKeepsAgreement(s, c);
    case CDeleteUser(_, _, _) => BulkCallKeepsAgreement(s, c);
    case CResetPassword(_, _, _, _, _) => BulkCallKeepsAgreement(s, c);
    case CChangePassword(_, _, _, _, _, _) => BulkCallKeepsAgreement(s, c);
    case CTick(_) => RowCallKeepsAgreement(s, c);
    case CLogout(_, _, _) => RowCallKeepsAgreement(s, c);
    case CChangeRole(_, _, _, _, _) => RowCallKeepsAgreement(s, c);
    case CRequestReset(_, _, _) => RowCallKeepsAgreement(s, c);
    case CRevokeExpired => RowCallKeepsAgreement(s, c);
  }

  lemma RowCallKeepsAgreement(s: State, c: Call)
    requires Agreement(s) && (c.CTick? || c.CLogout? || c.CChangeRole? || c.CRequestReset? || c.CRevokeExpired?) && Clean(c)
    ensures Agreement(Apply(s, c))
  {
    forall sid | Unrevoked(Apply(s, c), sid) ensures RowUsable(Apply(s, c), sid) {
      assert Unrevoked(s, sid) && RowUsable(s, sid);
    }
  }

  lemma SetStatusKeepsAgreement(s: State, t: Id, act: StatusAction, f: BulkFaults)
    requires Agreement(s) && CleanBulk(f) && t in s.users
    ensures Agreement(SetStatus(s, t, act, f))
  {
    var users := UpdateLive(s.users, t, s.users[t].(status := act.Target()));
    if act.Revokes() {
      BulkKeepsAgreement(s, users, s.resets, t, {}, f);
    } else {
      forall sid | Unrevoked(s, sid) ensures RowUsable(s.(users := users), sid) { assert RowUsable(s, sid); }
    }
  }

  /** In every reachable state of such a run cache and rows agree, and an unusable account has no live key and no open row. */
  lemma {:induction false} CacheAgreesWithRows(s: State, calls: seq<Call>, k: nat)
    requires Initial(s) && k <= |calls| && forall c | c in calls :: Clean(c)
    ensures Agreement(At(s, calls, k))
    ensures
      var x := At(s, calls, k);
      forall sid | sid in x.rows && !RowUsable(x, sid) ::
        x.rows[sid].revoked && !LiveSession(x, sid) && !LiveRefresh(x, sid)
  {
    if k > 0 {
      CacheAgreesWithRows(s, calls, k - 1);
      CallKeepsAgreement(At(s, calls, k - 1), calls[k - 1]);
    }
  }

  // ----- the 30-day job -----

  predicate Aged(s: State, sid: Id) { sid in s.rows && s.rows[sid].created < s.clock - SESSION_LIFE }

  /** `revoke_old_sessions` touches rows only: it keeps agreement exactly when no aged session still has a live key. */
  lemma RevokeOldKeepsAgreementIff(s: State)
    requires Agreement(s)
    ensures Agreement(RevokeOld(s)) <==> forall sid | Aged(s, sid) :: !LiveSession(s, sid) && !LiveRefresh(s, sid)
  {
    var s' := RevokeOld(s);
    if forall sid | Aged(s, sid) :: !LiveSession(s, sid) && !LiveRefresh(s, sid) {
      forall sid | Unrevoked(s', sid) ensures RowUsable(s', sid) { assert Unrevoked(s, sid) && RowUsable(s, sid); }
    } else {
      var sid :| Aged(s, sid) && (LiveSession(s, sid) || LiveRefresh(s, sid));
      assert !Unrevoked(s', sid);
      assert LiveSession(s', sid) || LiveRefresh(s', sid);
    }
  }

  lemma {:induction false} AtPrefix(s: State, calls: seq<Call>, c: Call, k: nat)
    requires k <= |calls|
    ensures At(s, calls + [c], k) == At(s, calls, k)
  {
    if k > 0 { AtPrefix(s, calls, c, k - 1); }
  }

  /** The state at the end of a clean run, in which session `sid` of `u` has just been given a refresh key. */
  ghost predicate JustRefreshed(s: State, calls: seq<Call>, x: State, sid: Id, u: Id) {
    && (forall c | c in calls :: Clean(c)) && x == At(s, calls, |calls|)
    && u in x.users && Usable(x.users[u])
    && Unrevoked(x, sid) && x.rows[sid].user == u
    && sid in x.refreshKeys && x.refreshKeys[sid] == RefreshKey(x.rows[sid].hash, x.clock + REFRESH_TTL)
  }

  const ALL_WELL := IssueFaults(Applied, true, Applied, Applied, Applied)

  /** Waiting less than the refresh lifetime and refreshing leads to such a state again, with the row's creation time unchanged. */
  lemma WaitAndRefresh(s: State, calls: seq<Call>, x: State, sid: Id, u: Id, wait: nat) returns (calls': seq<Call>, x': State)
    requires JustRefreshed(s, calls, x, sid, u) && wait < REFRESH_TTL
    ensures JustRefreshed(s, calls', x', sid, u)
    ensures x'.clock == x.clock + wait && x'.rows[sid].created == x.rows[sid].created
  {
    var tick := CTick(wait);
    var refresh := CRefresh(sid, u, x.rows[sid].hash, RefreshFaults(true, true, true, ALL_WELL, Applied, Applied));
    var w := x.(clock := x.clock + wait);
    AtPrefix(s, calls, tick, |calls|);
    assert At(s, calls + [tick], |calls| + 1) == w;
    AtPrefix(s, calls + [tick], refresh, |calls| + 1);
    calls' := calls + [tick] + [refresh];
    x' := RotateTokens(w, sid, ALL_WELL);
    assert At(s, calls', |calls'|) == x';
  }

  /** Refreshing keeps a session alive past 30 days: such a state is reachable, for any user who may log in. */
  lemma RefreshedSessionOutlivesItsRow(s: State, u: Id)
    requires Initial(s) && u in s.users && Usable(s.users[u])
    ensures exists calls: seq<Call> ::
      (forall c | c in calls :: Clean(c)) && Agreement(At(s, calls, |calls|)) && !Agreement(RevokeOld(At(s, calls, |calls|)))
  {
    var sid, x := s.next, Issue(s, u, ALL_WELL);
    var calls := [CLogin(u, ALL_WELL)];
    assert At(s, calls, 0) == s;
    assert JustRefreshed(s, calls, x, sid, u);
    var calls1, x1 := WaitAndRefresh(s, calls, x, sid, u, 1200000);
    var calls2, x2 := WaitAndRefresh(s, calls1, x1, sid, u, 1200000);
    var calls3, x3 := WaitAndRefresh(s, calls2, x2, sid, u, 500000);
    assert Aged(x3, sid) && LiveRefresh(x3, sid);
    CacheAgreesWithRows(s, calls3, |calls3|);
    RevokeOldKeepsAgreementIff(x3);
  }

  // ----- exact effect of the password calls -----

  predicate Live(s: State, sid: Id) { LiveSession(s, sid) || LiveRefresh(s, sid) }

  /** Session `sid` looks the same in both stores. */
  predicate Untouched(s: State, s': State, sid: Id) {
    && (sid in s'.rows <==> sid in s.rows) && (sid in s.rows ==> s'.rows[sid] == s.rows[sid])
    && (LiveSession(s', sid) <==> LiveSession(s, sid)) && (LiveRefresh(s', sid) <==> LiveRefresh(s, sid))
  }

  predicate Owned(s: State, sid: Id, u: Id) { sid in s.rows && s.rows[sid].user == u }

  /** A successful reset ends every session of the account and no other. */
  lemma ResetEndsAllSessions(s: State, id: Id, tok: Secret, password: Secret, k: PasswordChecks, f: BulkFaults)
    requires Agreement(s) && CleanBulk(f) && ResetRefusal(s, id, tok, k).None?
    ensures
      var s' := ResetPassword(s, id, password, f);
      var u := s.resets[id].user;
      && s'.resets[id].used && s'.users[u].password == password
      && (forall sid | Owned(s', sid, u) :: s'.rows[sid].revoked && !Live(s', sid))
      && (forall sid: Id | !Owned(s, sid, u) :: Untouched(s, s', sid))
  {
    var s' := ResetPassword(s, id, password, f);
    forall sid | Owned(s', sid, s.resets[id].user) ensures !Live(s', sid) {
      assert Live(s, sid) ==> Unrevoked(s, sid);
    }
  }

  /** A successful change ends every other session of the account and keeps the caller's as it was. */
  lemma ChangeKeepsOnlyTheCaller(s: State, u: Id, current: Id, given: Secret, password: Secret, k: PasswordChecks, f: BulkFaults)
    requires Agreement(s) && CleanBulk(f) && ChangeRefusal(s, u, given, password, k).None?
    ensures
      var s' := ChangePassword(s, u, current, password, f);
      && s'.users[u].password == password
      && (forall sid | Owned(s', sid, u) && sid != current :: s'.rows[sid].revoked && !Live(s', sid))
      && (forall sid: Id | !Owned(s, sid, u) || sid == current :: Untouched(s, s', sid))
  {
    var s' := ChangePassword(s, u, current, password, f);
    forall sid | Owned(s', sid, u) && sid != current ensures !Live(s', sid) {
      assert Live(s, sid) ==> Unrevoked(s, sid);
    }
  }
}
