/** The service calls as they run: statement by statement over the two stores, proved equal to the call functions of `Sessions`. */
module SessionService {
  import opened Base
  import opened Sessions

  class Stores {
    var clock: Time
    var users: map<Id, User>
    var rows: map<Id, Row>
    var sessionKeys: map<Id, Time>
    var refreshKeys: map<Id, RefreshKey>
    var resets: map<Id, Reset>
    var signed: set<Claims>
    var next: nat

    constructor (now: Time, accounts: map<Id, User>, supply: nat)
      requires forall u | u in accounts :: u < supply
      ensures Initial(View()) && View().users == accounts && View().clock == now
    {
      clock, users, rows, next := now, accounts, map[], supply;
      sessionKeys, refreshKeys, resets, signed := map[], map[], map[], {};
    }

    function View(): State
      reads this
    {
      State(clock, users, rows, sessionKeys, refreshKeys, resets, signed, next)
    }

    // ----- Redis -----

    /** One `DEL session:id refresh:id`. */
    method DeleteSession(sid: Id, w: Write)
      modifies this`sessionKeys, this`refreshKeys
      ensures sessionKeys == DropIf(w.Took(), old(sessionKeys), {sid})
      ensures refreshKeys == DropIf(w.Took(), old(refreshKeys), {sid})
    {
      if w.Took() {
        sessionKeys, refreshKeys := sessionKeys - {sid}, refreshKeys - {sid};
      }
    }

    /** The deletion loop after every bulk revocation; `keep` is the caller's own session, which the loop skips. */
    method DeleteSessions(ids: seq<Id>, keep: set<Id>, lost: set<Id>)
      modifies this`sessionKeys, this`refreshKeys
      ensures sessionKeys == old(sessionKeys) - ((set x | x in ids) - keep - lost)
      ensures refreshKeys == old(refreshKeys) - ((set x | x in ids) - keep - lost)
    {
      for i := 0 to |ids|
        invariant sessionKeys == old(sessionKeys) - ((set x | x in ids[..i]) - keep - lost)
        invariant refreshKeys == old(refreshKeys) - ((set x | x in ids[..i]) - keep - lost)
      {
        if ids[i] !in keep {
          DeleteSession(ids[i], if ids[i] in lost then Lost else Applied);
        }
        assert ids[..i + 1] == ids[..i] + [ids[i]];
      }
      assert ids[..|ids|] == ids;
    }

    // ----- Postgres -----

    /** The rows come back in some order. */
    method ListActiveSessionIDs(u: Id) returns (ids: seq<Id>)
      ensures (set x | x in ids) == ActiveIds(View(), u)
    {
      ids := [];
      var left := ActiveIds(View(), u);
      while left != {}
        invariant (set x | x in ids) + left == ActiveIds(View(), u)
        decreases |left|
      {
        var x :| x in left;
        ids := ids + [x];
        left := left - {x};
      }
    }

    // ----- sign-up, login, refresh, logout -----

    /** `generateAccessJWT` then `generateAndStoreRefresh`: key, signature, key. */
    method StoreTokens(claims: Claims, raw: Secret, f: IssueFaults) returns (ok: bool)
      modifies this`sessionKeys, this`signed, this`refreshKeys
      ensures sessionKeys == PutIf(f.setSession.Took(), old(sessionKeys), claims.sid, claims.exp)
      ensures signed == if f.Signed() then old(signed) + {claims} else old(signed)
      ensures refreshKeys ==
        PutIf(f.Signed() && f.setRefresh.Took(), old(refreshKeys), claims.sid, RefreshKey(raw, clock + REFRESH_TTL))
      ensures ok == f.Minted()
    {
      if f.setSession.Took() { sessionKeys := sessionKeys[claims.sid := claims.exp]; }
      if !f.setSession.Acked() || !f.sign { return false; }
      signed := signed + {claims};
      if f.setRefresh.Took() { refreshKeys := refreshKeys[claims.sid := RefreshKey(raw, clock + REFRESH_TTL)]; }
      return f.setRefresh.Acked();
    }

    method IssueLoginSession(user: Id, f: IssueFaults) returns (reply: Reply)
      requires user in users
      modifies this
      ensures View() == Issue(old(View()), user, f)
      ensures reply == IssueReply(old(View()), user, f)
    {
      var sid, raw := next, next + 1;
      next := next + 2;
      var claims := Claims(sid, user, RoleName(users[user].role), clock, clock + ACCESS_TTL);
      var ok := StoreTokens(claims, raw, f);
      if !ok { return TokenGenerationFailed; }
      if f.row.Took() { rows := rows[sid := Row(user, raw, clock, clock + REFRESH_TTL, false)]; }
      if !f.row.Acked() {
        DeleteSession(sid, f.undo);
        return TokenGenerationFailed;
      }
      return Issued(claims, raw);
    }

    method RevokeCompromisedSession(sid: Id, delKeys: Write, revoke: Write)
      modifies this
      ensures View() == Kill(old(View()), sid, delKeys, revoke)
    {
      DeleteSession(sid, delKeys);
      rows := RevokeIf(revoke.Took(), rows, {sid});
    }

    method RefreshToken(sid: Id, user: Id, supplied: Secret, f: RefreshFaults) returns (reply: Reply)
      modifies this
      ensures View() == Refresh(old(View()), sid, user, supplied, f)
      ensures reply == RefreshReply(old(View()), sid, user, supplied, f)
    {
      if !f.getKey { return InternalError; }
      if sid !in refreshKeys || refreshKeys[sid].exp <= clock { return SessionExpired; }
      if refreshKeys[sid].hash != supplied {
        RevokeCompromisedSession(sid, f.delKeys, f.revoke);
        return SessionExpired;
      }
      if !f.getRow { return InternalError; }
      if sid !in rows { return SessionExpired; }
      var row := rows[sid];
      if row.revoked || row.user != user || row.hash != supplied {
        RevokeCompromisedSession(sid, f.delKeys, f.revoke);
        return SessionExpired;
      }
      if !f.getUser { return InternalError; }
      if row.user !in users {
        RevokeCompromisedSession(sid, f.delKeys, f.revoke);
        return Unauthorized;
      }
      var account := users[row.user];
      if account.deleted || account.status == Banned || account.status == Disabled {
        RevokeCompromisedSession(sid, f.delKeys, f.revoke);
        return AccountNotUsable;
      }
      // RotateSessionTokens
      var raw := next;
      next := next + 1;
      var claims := Claims(sid, row.user, RoleName(account.role), clock, clock + ACCESS_TTL);
      var ok := StoreTokens(claims, raw, f.issue);
      if !ok { return TokenGenerationFailed; }
      // RotateRefreshSession, WHERE id = $3 AND revoked = FALSE
      if f.issue.row.Took() && !rows[sid].revoked {
        rows := rows[sid := rows[sid].(hash := raw, expires := clock + REFRESH_TTL)];
      }
      if !f.issue.row.Acked() { return TokenGenerationFailed; }
      return Issued(claims, raw);
    }

    method Logout(sid: Id, delKeys: Write, revoke: Write) returns (reply: Reply)
      modifies this
      ensures View() == Kill(old(View()), sid, delKeys, revoke)
      ensures reply == if revoke.Acked() then Done else InternalError
    {
      DeleteSession(sid, delKeys);
      rows := RevokeIf(revoke.Took(), rows, {sid});
      return if revoke.Acked() then Done else InternalError;
    }

    // ----- bulk revocations -----

    /** The listing before a bulk revocation; when it fails the call goes on with no ids. */
    method ListForDeletion(u: Id, wanted: bool, keep: set<Id>, lost: set<Id>) returns (ids: seq<Id>)
      ensures (set x | x in ids) - keep - lost == if wanted then ActiveIds(View(), u) - keep - lost else {}
    {
      ids := [];
      if wanted { ids := ListActiveSessionIDs(u); }
    }

    /** End of the transaction, then the Redis deletions. */
    method CommitThenDelete(users1: map<Id, User>, resets1: map<Id, Reset>, rows1: map<Id, Row>,
                            ids: seq<Id>, keep: set<Id>, tx: Tx, lost: set<Id>) returns (reply: Reply)
      requires !tx.FailedAt?
      modifies this`users, this`resets, this`rows, this`sessionKeys, this`refreshKeys
      ensures users == if tx.Took() then users1 else old(users)
      ensures resets == if tx.Took() then resets1 else old(resets)
      ensures rows == if tx.Took() then rows1 else old(rows)
      ensures sessionKeys == DropIf(tx.Committed?, old(sessionKeys), (set x | x in ids) - keep - lost)
      ensures refreshKeys == DropIf(tx.Committed?, old(refreshKeys), (set x | x in ids) - keep - lost)
      ensures reply == TxReply(tx)
    {
      if tx.Took() { users, resets, rows := users1, resets1, rows1; }
      if !tx.Committed? { return InternalError; }
      DeleteSessions(ids, keep, lost);
      return Done;
    }

    // ----- administration -----

    method LoadAdminTarget(actor: Id, target: Id, loaded: bool) returns (refusal: Option<Reply>)
      ensures refusal == Refusal(View(), actor, target, loaded)
    {
      if actor == target { return Some(CannotTargetSelf); }
      if !loaded { return Some(InternalError); }
      if target !in users { return Some(UserNotFound); }
      if users[target].role == Admin { return Some(AdminProtected); }
      return None;
    }

    method SetUserStatusAction(actor: Id, target: Id, action: StatusAction, f: BulkFaults) returns (reply: Reply)
      modifies this
      ensures Refusal(old(View()), actor, target, f.loaded).Some? ==> View() == old(View()) && reply == Refusal(old(View()), actor, target, f.loaded).value
      ensures Refusal(old(View()), actor, target, f.loaded).None? ==> View() == SetStatus(old(View()), target, action, f) && reply == TxReply(f.tx)
    {
      var refusal := LoadAdminTarget(actor, target, f.loaded);
      if refusal.Some? { return refusal.value; }
      var ids := ListForDeletion(target, action.Revokes() && f.list, {}, f.lost);

      if f.tx == FailedAt(0) { return InternalError; } // SetActorID
      var users1 := UpdateLive(users, target, users[target].(status := action.Target()));
      if f.tx == FailedAt(1) { return InternalError; }
      var rows1 := rows;
      if action.Revokes() {
        rows1 := RevokeIf(true, rows, ActiveIds(View(), target) - {});
        if f.tx == FailedAt(2) { return InternalError; }
      }
      if f.tx.FailedAt? { return InternalError; } // audit row
      reply := CommitThenDelete(users1, resets, rows1, ids, {}, f.tx, f.lost);
    }

    method ForceLogoutUser(actor: Id, target: Id, f: BulkFaults) returns (reply: Reply)
      modifies this
      ensures Refusal(old(View()), actor, target, f.loaded).Some? ==> View() == old(View()) && reply == Refusal(old(View()), actor, target, f.loaded).value
      ensures Refusal(old(View()), actor, target, f.loaded).None? ==>
        View() == Bulk(old(View()), old(users), old(resets), target, {}, f) && reply == TxReply(f.tx)
    {
      var refusal := LoadAdminTarget(actor, target, f.loaded);
      if refusal.Some? { return refusal.value; }
      var ids := ListForDeletion(target, f.list, {}, f.lost);

      if f.tx == FailedAt(0) { return InternalError; } // SetActorID
      var rows1 := RevokeIf(true, rows, ActiveIds(View(), target) - {});
      if f.tx.FailedAt? { return InternalError; } // revocation or audit row
      reply := CommitThenDelete(users, resets, rows1, ids, {}, f.tx, f.lost);
    }

    method ChangeUserRole(actor: Id, target: Id, role: Role, loaded: bool, tx: Tx) returns (reply: Reply)
      modifies this`users
      ensures Refusal(old(View()), actor, target, loaded).Some? ==> View() == old(View()) && reply == Refusal(old(View()), actor, target, loaded).value
      ensures Refusal(old(View()), actor, target, loaded).None? ==>
        if role == Admin then View() == old(View()) && reply == AdminProtected
        else View() == ChangeRole(old(View()), target, role, tx) && reply == TxReply(tx)
    {
      var refusal := LoadAdminTarget(actor, target, loaded);
      if refusal.Some? { return refusal.value; }
      if role == Admin { return AdminProtected; }
      if tx.FailedAt? { return InternalError; }
      if tx.Took() { users := UpdateLive(users, target, users[target].(role := role)); }
      return if tx.Committed? then Done else InternalError;
    }

    method DeleteUserAction(actor: Id, target: Id, f: BulkFaults) returns (reply: Reply)
      modifies this
      ensures Refusal(old(View()), actor, target, f.loaded).Some? ==> View() == old(View()) && reply == Refusal(old(View()), actor, target, f.loaded).value
      ensures Refusal(old(View()), actor, target, f.loaded).None? ==> View() == DeleteUser(old(View()), target, f) && reply == TxReply(f.tx)
    {
      var refusal := LoadAdminTarget(actor, target, f.loaded);
      if refusal.Some? { return refusal.value; }
      var ids := ListForDeletion(target, f.list, {}, f.lost);

      if f.tx == FailedAt(0) { return InternalError; } // SetActorID
      var users1 := UpdateLive(users, target, users[target].(deleted := true));
      if f.tx == FailedAt(1) { return InternalError; }
      var rows1 := RevokeIf(true, rows, ActiveIds(View(), target) - {});
      if f.tx.FailedAt? { return InternalError; } // revocation or audit row
      reply := CommitThenDelete(users1, resets, rows1, ids, {}, f.tx, f.lost);
    }

    // ----- passwords -----

    /** `id` is the row the token lookup finds, if any. */
    method ResetPasswordWith(id: Id, tok: Secret, password: Secret, k: PasswordChecks, f: BulkFaults) returns (reply: Reply)
      modifies this
      ensures ResetRefusal(old(View()), id, tok, k).Some? ==> View() == old(View()) && reply == ResetRefusal(old(View()), id, tok, k).value
      ensures ResetRefusal(old(View()), id, tok, k).None? ==> View() == ResetPassword(old(View()), id, password, f) && reply == TxReply(f.tx)
      ensures ResetRefusal(old(View()), id, tok, k).None? ==>
        if f.tx.Took() then
          && resets == old(resets)[id := old(resets)[id].(used := true)]
          && users == old(users)[resets[id].user := old(users)[resets[id].user].(password := password)]
          && rows == RevokeIf(true, old(rows), ActiveIds(old(View()), resets[id].user))
        else resets == old(resets) && users == old(users) && rows == old(rows)
    {
      if !k.format { return InvalidPasswordFormat; }
      if !k.lookup { return InternalError; }
      if !ActiveReset(View(), id, tok) { return InvalidOrExpiredToken; }
      var u := resets[id].user;
      if !k.account || u !in users { return InternalError; }
      if !Usable(users[u]) { return AccountNotUsable; }
      if !k.hashing { return InternalError; }
      var ids := ListForDeletion(u, f.list, {}, f.lost);

      // CompletePasswordReset: three statements and the commit
      var resets1 := resets[id := resets[id].(used := true)];
      if f.tx == FailedAt(0) { return InternalError; }
      var users1 := users[u := users[u].(password := password)];
      if f.tx == FailedAt(1) { return InternalError; }
      var rows1 := RevokeIf(true, rows, ActiveIds(View(), u) - {});
      if f.tx.FailedAt? { return InternalError; }
      reply := CommitThenDelete(users1, resets1, rows1, ids, {}, f.tx, f.lost);
    }

    method ChangeOwnPassword(user: Id, current: Id, given: Secret, password: Secret, k: PasswordChecks, f: BulkFaults) returns (reply: Reply)
      modifies this
      ensures ChangeRefusal(old(View()), user, given, password, k).Some? ==>
        View() == old(View()) && reply == ChangeRefusal(old(View()), user, given, password, k).value
      ensures ChangeRefusal(old(View()), user, given, password, k).None? ==>
        View() == ChangePassword(old(View()), user, current, password, f) && reply == TxReply(f.tx)
    {
      if !k.format { return InvalidPasswordFormat; }
      if !k.account { return InternalError; }
      if user !in users { return Unauthorized; }
      if !Usable(users[user]) { return AccountNotUsable; }
      if !k.readable { return InternalError; }
      if users[user].password != given { return InvalidCredentials; }
      if users[user].password == password { return NewPasswordMatchesCurrent; }
      if !k.hashing { return InternalError; }
      var ids := ListForDeletion(user, f.list, {current}, f.lost);

      // CompletePasswordChange: two statements and the commit
      var users1 := users[user := users[user].(password := password)];
      if f.tx == FailedAt(0) { return InternalError; }
      var rows1 := RevokeIf(true, rows, ActiveIds(View(), user) - {current});
      if f.tx.FailedAt? { return InternalError; }
      reply := CommitThenDelete(users1, resets, rows1, ids, {current}, f.tx, f.lost);
    }
  }
}
