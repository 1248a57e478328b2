/** What callers are told, against what the stores then hold: issued tokens work, refused calls change nothing they should not. */
module SessionReplies {
  import opened Base
  import opened Sessions
  import opened SessionRuns
  import SessionAuthority

  // ----- what an issued pair is good for -----

  /** Both stores hold refresh secret `h` for session `sid` of a usable user, until `exp`. */
  predicate Holding(s: State, sid: Id, u: Id, h: Secret, exp: Time) {
    && sid in s.refreshKeys && s.refreshKeys[sid] == RefreshKey(h, exp)
    && sid in s.rows && s.rows[sid].user == u && s.rows[sid].hash == h && s.rows[sid].expires == exp && !s.rows[sid].revoked
    && u in s.users && !s.users[u].deleted && s.users[u].status != Banned && s.users[u].status != Disabled
  }

  /** The access token names the user and the role stored at this moment, lives for one access lifetime, and is accepted. */
  predicate GoodAccess(s: State, c: Claims, sid: Id, u: Id) {
    && c.sid == sid && c.user == u && u in s.users && c.role == RoleName(s.users[u].role)
    && c.iat == s.clock && c.exp == s.clock + ACCESS_TTL
    && c in s.signed && sid in s.sessionKeys && s.sessionKeys[sid] == c.exp
  }

  /** A successful refresh answers with the secret both stores now hold, not with the one it consumed, and with an access token that is accepted. */
  lemma RefreshAnswers(s: State, sid: Id, user: Id, tok: Secret, f: RefreshFaults)
    requires WellFormed(s) && RefreshReply(s, sid, user, tok, f).Issued?
    ensures
      var s', r := Refresh(s, sid, user, tok, f), RefreshReply(s, sid, user, tok, f);
      && Holding(s', sid, user, r.refresh, s.clock + REFRESH_TTL) && r.refresh != tok
      && GoodAccess(s', r.claims, sid, user) && Accepted(s', r.claims)
      && s'.clock == s.clock
  {
    assert Holds(s, sid, tok);
  }

  /** The same for every login. */
  lemma LoginAnswers(s: State, user: Id, f: IssueFaults)
    requires WellFormed(s) && LoginRefusal(s, user).None? && IssueReply(s, user, f).Issued?
    ensures
      var s', r := Issue(s, user, f), IssueReply(s, user, f);
      && !(exists h :: Holds(s, r.claims.sid, h))
      && Holding(s', r.claims.sid, user, r.refresh, s.clock + REFRESH_TTL)
      && GoodAccess(s', r.claims, r.claims.sid, user) && Accepted(s', r.claims)
      && s'.clock == s.clock
  {
  }

  /** No call of the service but these concerns session `sid` of user `u`. */
  predicate Concerns(s: State, c: Call, sid: Id, u: Id) {
    match c
    case CRefresh(x, _, _, _) => x == sid
    case CLogout(x, _, _) => x == sid
    case CSetStatus(_, t, _, _) => t == u
    case CForceLogout(_, t, _) => t == u
    case CDeleteUser(_, t, _) => t == u
    case CResetPassword(id, _, _, _, _) => id in s.resets && s.resets[id].user == u
    case CChangePassword(x, _, _, _, _, _) => x == u
    case CRevokeOld => true
    case _ => false
  }

  lemma OtherIssueKeeps(s: State, c: Call, sid: Id, u: Id, h: Secret, exp: Time)
    requires WellFormed(s) && Holding(s, sid, u, h, exp) && u < s.next && !Concerns(s, c, sid, u) && (c.CSignUp? || c.CLogin? || c.CRefresh?)
    ensures Holding(Apply(s, c), sid, u, h, exp) && u < Apply(s, c).next
  {
    assert Holds(s, sid, h);
  }

  lemma BulkSpares(s: State, users: map<Id, User>, resets: map<Id, Reset>, t: Id, keep: set<Id>, f: BulkFaults,
                   sid: Id, u: Id, h: Secret, exp: Time)
    requires Holding(s, sid, u, h, exp) && t != u && u in users && users[u] == s.users[u]
    ensures Holding(Bulk(s, users, resets, t, keep, f), sid, u, h, exp)
  {
  }

  lemma BulkCallKeeps(s: State, c: Call, sid: Id, u: Id, h: Secret, exp: Time)
    requires Holding(s, sid, u, h, exp) && u < s.next && !Concerns(s, c, sid, u)
    requires c.CSetStatus? || c.CForceLogout? || c.CDeleteUser? || c.CResetPassword? || c.CChangePassword?
    ensures Holding(Apply(s, c), sid, u, h, exp) && u < Apply(s, c).next
  {
    match c
    case CSetStatus(_, t, a, f) =>
      if t in s.users { BulkSpares(s, UpdateLive(s.users, t, s.users[t].(status := a.Target())), s.resets, t, {}, f, sid, u, h, exp); }
    case CForceLogout(_, t, f) => BulkSpares(s, s.users, s.resets, t, {}, f, sid, u, h, exp);
    case CDeleteUser(_, t, f) =>
      if t in s.users { BulkSpares(s, UpdateLive(s.users, t, s.users[t].(deleted := true)), s.resets, t, {}, f, sid, u, h, exp); }
    case CResetPassword(id, tok, p, k, f) =>
      if ResetRefusal(s, id, tok, k).None? {
        var t := s.resets[id].user;
        BulkSpares(s, WithPassword(s, t, p), s.resets[id := s.resets[id].(used := true)], t, {}, f, sid, u, h, exp);
      }
    case CChangePassword(t, x, _, p, _, f) =>
      if t in s.users { BulkSpares(s, WithPassword(s, t, p), s.resets, t, {x}, f, sid, u, h, exp); }
  }

  lemma OtherCallKeeps(s: State, c: Call, sid: Id, u: Id, h: Secret, exp: Time)
    requires Holding(s, sid, u, h, exp) && u < s.next && !Concerns(s, c, sid, u) && s.clock <= exp
    requires !c.CSignUp? && !c.CLogin? && !c.CRefresh?
    ensures Holding(Apply(s, c), sid, u, h, exp) && u < Apply(s, c).next
  {
    if c.CSetStatus? || c.CForceLogout? || c.CDeleteUser? || c.CResetPassword? || c.CChangePassword? {
      BulkCallKeeps(s, c, sid, u, h, exp);
    }
  }

  lemma {:induction false} HoldingLasts(s: State, calls: seq<Call>, i: nat, j: nat, sid: Id, u: Id, h: Secret, exp: Time)
    requires Initial(s) && i <= j <= |calls| && At(s, calls, j).clock <= exp
    requires Holding(At(s, calls, i), sid, u, h, exp) && u < At(s, calls, i).next
    requires forall m | i <= m < j :: !Concerns(At(s, calls, m), calls[m], sid, u)
    ensures Holding(At(s, calls, j), sid, u, h, exp) && u < At(s, calls, j).next
    decreases j
  {
    if i < j {
      var x, c := At(s, calls, j - 1), calls[j - 1];
      SessionAuthority.ClockAdvances(x, c);
      HoldingLasts(s, calls, i, j - 1, sid, u, h, exp);
      WellFormedAt(s, calls, j - 1);
      if c.CSignUp? || c.CLogin? || c.CRefresh? { OtherIssueKeeps(x, c, sid, u, h, exp); } else { OtherCallKeeps(x, c, sid, u, h, exp); }
    }
  }

  /** All store accesses of the call answer and take effect. */
  predicate Smooth(f: RefreshFaults) {
    f.getKey && f.getRow && f.getUser && f.issue.setSession.Applied? && f.issue.sign && f.issue.setRefresh.Applied? && f.issue.row.Applied?
  }

  /** When a refresh succeeds, in terms of the stores. */
  lemma RefreshSucceedsIff(s: State, sid: Id, user: Id, tok: Secret, f: RefreshFaults)
    requires Smooth(f)
    ensures RefreshReply(s, sid, user, tok, f).Issued? <==>
      && sid in s.refreshKeys && s.clock < s.refreshKeys[sid].exp && s.refreshKeys[sid].hash == tok
      && sid in s.rows && s.rows[sid].hash == tok && s.rows[sid].user == user && !s.rows[sid].revoked
      && user in s.users && !s.users[user].deleted && s.users[user].status != Banned && s.users[user].status != Disabled
  {
  }

  /**
   * The secret answered by a refresh or a login works: until its lifetime is
   * over, and while no call concerns that session, presenting it is answered
   * with a new pair.
   */
  lemma AnsweredSecretWorks(s: State, calls: seq<Call>, i: nat, j: nat, sid: Id, u: Id, h: Secret, f: RefreshFaults)
    requires Initial(s) && i < j <= |calls| && Smooth(f)
    requires
      var x, c := At(s, calls, i), calls[i];
      || (c.CRefresh? && c.sid == sid && c.user == u && RefreshReply(x, sid, u, c.tok, c.refresh).Issued?
          && RefreshReply(x, sid, u, c.tok, c.refresh).refresh == h)
      || (c.CLogin? && c.user == u && LoginRefusal(x, u).None? && IssueReply(x, u, c.issue).Issued?
          && IssueReply(x, u, c.issue).claims.sid == sid && IssueReply(x, u, c.issue).refresh == h)
    requires At(s, calls, j).clock < At(s, calls, i).clock + REFRESH_TTL
    requires forall m | i < m < j :: !Concerns(At(s, calls, m), calls[m], sid, u)
    ensures RefreshReply(At(s, calls, j), sid, u, h, f).Issued?
  {
    var x, c := At(s, calls, i), calls[i];
    WellFormedAt(s, calls, i);
    UsersFromSupply(s, calls, i);
    if c.CRefresh? { RefreshAnswers(x, sid, u, c.tok, c.refresh); } else { LoginAnswers(x, u, c.issue); }
    UsersFromSupply(s, calls, i + 1);
    HoldingLasts(s, calls, i + 1, j, sid, u, h, x.clock + REFRESH_TTL);
    RefreshSucceedsIff(At(s, calls, j), sid, u, h, f);
  }

  lemma {:induction false} UsersFromSupply(s: State, calls: seq<Call>, k: nat)
    requires Initial(s) && k <= |calls|
    ensures forall u | u in At(s, calls, k).users :: u < At(s, calls, k).next
  {
    forall u | u in At(s, calls, k).users ensures u < At(s, calls, k).next { SessionAuthority.AdminsNeverChange(s, calls, k, u); }
  }

  // ----- refused refreshes -----

  /** There is something to compare with, and it differs. */
  predicate Mismatch(s: State, sid: Id, user: Id, tok: Secret) {
    && sid in s.refreshKeys && s.clock < s.refreshKeys[sid].exp
    && (s.refreshKeys[sid].hash != tok
        || (sid in s.rows && (s.rows[sid].hash != tok || s.rows[sid].user != user || s.rows[sid].revoked || user !in s.users
                              || s.users[user].deleted || s.users[user].status == Banned || s.users[user].status == Disabled)))
  }

  /** A refused refresh whose reads answered ends the session if something differed, and otherwise changes nothing. */
  lemma RefusedRefresh(s: State, sid: Id, user: Id, tok: Secret, f: RefreshFaults)
    requires Smooth(f) && f.delKeys.Applied? && f.revoke.Applied? && !RefreshReply(s, sid, user, tok, f).Issued?
    ensures
      var s' := Refresh(s, sid, user, tok, f);
      if Mismatch(s, sid, user, tok) then
        && sid !in s'.sessionKeys && sid !in s'.refreshKeys && (sid in s.rows ==> s'.rows == s.rows[sid := s.rows[sid].(revoked := true)])
      else s' == s
  {
  }

  // ----- failures on the way -----

  /** What a login leaves behind, whichever of its writes failed: the keys written so far, unless the row failed and they were taken back. */
  lemma LoginLeaves(s: State, u: Id, f: IssueFaults)
    requires WellFormed(s) && u in s.users
    ensures
      var s', sid := Issue(s, u, f), s.next;
      var signed, rowTried := f.setSession.Applied? && f.sign, f.setSession.Applied? && f.sign && f.setRefresh.Applied?;
      var undone := rowTried && !f.row.Applied? && !f.undo.Lost?;
      && (!undone && !f.setSession.Lost? ==> sid in s'.sessionKeys && s'.sessionKeys[sid] == s.clock + 900)
      && (undone ==> sid !in s'.sessionKeys && sid !in s'.refreshKeys)
      && (sid in s'.rows <==> rowTried && !f.row.Lost?)
      && (!signed ==> s'.signed == s.signed)
      && (IssueReply(s, u, f).Issued? <==> rowTried && f.row.Applied?)
  {
    assert s.next in s.rows ==> Holds(s, s.next, s.rows[s.next].hash);
  }

  /** A refresh whose token matched but whose writes failed answers no token; the row changes only with the last write. */
  lemma RefreshLeaves(s: State, sid: Id, user: Id, tok: Secret, f: RefreshFaults, ok: RefreshFaults)
    requires Smooth(ok) && RefreshReply(s, sid, user, tok, ok).Issued? && f.getKey && f.getRow && f.getUser
    ensures
      var s' := Refresh(s, sid, user, tok, f);
      var rowTried := f.issue.setSession.Applied? && f.issue.sign && f.issue.setRefresh.Applied?;
      && (RefreshReply(s, sid, user, tok, f).Issued? <==> rowTried && f.issue.row.Applied?)
      && (s'.rows != s.rows ==> rowTried && !f.issue.row.Lost?)
      && (rowTried && !f.issue.row.Lost? ==> sid in s'.rows && s'.rows[sid] == s.rows[sid].(hash := s.next, expires := s.clock + 1209600))
      && (f.issue.setSession.Lost? ==> s'.sessionKeys == s.sessionKeys && s'.refreshKeys == s.refreshKeys)
  {
  }

  /** Sign-up creates a plain, active account with the chosen password. */
  lemma SignUpCreates(s: State, password: Secret)
    ensures NewUser(s, password).users == s.users[s.next := User(Plain, Active, false, password)]
  {
  }

  // ----- logout -----

  /** Each of the two writes of a logout, or of a revocation, does its part alone. */
  lemma KillParts(s: State, sid: Id, delKeys: Write, revoke: Write)
    ensures
      var s' := Kill(s, sid, delKeys, revoke);
      && (delKeys.Lost? ==> s'.sessionKeys == s.sessionKeys && s'.refreshKeys == s.refreshKeys)
      && (!delKeys.Lost? ==> s'.sessionKeys == s.sessionKeys - {sid} && s'.refreshKeys == s.refreshKeys - {sid})
      && (revoke.Lost? || sid !in s.rows ==> s'.rows == s.rows)
      && (!revoke.Lost? && sid in s.rows ==> s'.rows == s.rows[sid := s.rows[sid].(revoked := true)])
      && s'.users == s.users && s'.signed == s.signed && s'.resets == s.resets
  {
  }

  /** A logout ends its session in both stores and touches no other. */
  lemma LogoutEnds(s: State, sid: Id)
    ensures
      var s' := Kill(s, sid, Applied, Applied);
      && sid !in s'.sessionKeys && sid !in s'.refreshKeys
      && (sid in s.rows ==> s'.rows == s.rows[sid := s.rows[sid].(revoked := true)]) && (sid !in s.rows ==> s'.rows == s.rows)
      && (forall x: Id | x != sid ::
            (x in s'.sessionKeys <==> x in s.sessionKeys) && (x in s.sessionKeys ==> s'.sessionKeys[x] == s.sessionKeys[x])
            && (x in s'.refreshKeys <==> x in s.refreshKeys) && (x in s.refreshKeys ==> s'.refreshKeys[x] == s.refreshKeys[x]))
  {
  }

  // ----- password change -----

  /** Who may change a password, and when the answer is each of the refusals. */
  lemma ChangeAnswers(s: State, u: Id, given: Secret, password: Secret, k: PasswordChecks)
    requires k == PasswordChecks(true, true, true, true, true)
    ensures ChangeRefusal(s, u, given, password, k).None? <==>
      && u in s.users && !s.users[u].deleted && s.users[u].status != Banned && s.users[u].status != Disabled
      && given == s.users[u].password && password != s.users[u].password
    ensures u in s.users && given != s.users[u].password && LoginRefusal(s, u).None? ==>
      ChangeRefusal(s, u, given, password, k) == Some(InvalidCredentials)
  {
  }

  /** The old password stops and the new one starts working with the change, and with nothing less than it. */
  lemma ChangedPasswordReplacesOld(s: State, u: Id, sid: Id, given: Secret, password: Secret, k: PasswordChecks, f: BulkFaults)
    requires ChangeRefusal(s, u, given, password, k).None?
    ensures
      var s' := ChangePassword(s, u, sid, password, f);
      var all := PasswordChecks(true, true, true, true, true);
      && (f.tx.Took() ==> forall q :: ChangeRefusal(s', u, given, q, all) == Some(InvalidCredentials))
      && (f.tx.Took() ==> forall q | q != password :: ChangeRefusal(s', u, password, q, all).None?)
      && (!f.tx.Took() ==> s' == s)
  {
  }
}
