/** The exact effect of the administrative calls, and which reset tokens work, over whole runs. */
module SessionAdmin {
  import opened Base
  import opened Sessions
  import opened SessionResets
  import SessionAuthority

  // ----- who may do it -----

  /** An administrator's call goes ahead exactly if the target was looked up, exists, is someone else and is no admin. */
  lemma AdminAnswers(s: State, actor: Id, target: Id, loaded: bool)
    ensures Refusal(s, actor, target, loaded).None? <==> loaded && actor != target && target in s.users && s.users[target].role != Admin
    ensures Refusal(s, actor, target, loaded) == Some(CannotTargetSelf) <==> actor == target
    ensures Refusal(s, actor, target, loaded) == Some(AdminProtected) <==>
      loaded && actor != target && target in s.users && s.users[target].role == Admin
    ensures Refusal(s, actor, target, loaded) == Some(UserNotFound) <==> loaded && actor != target && target !in s.users
  {
  }

  // ----- what it does -----

  /** Session `sid` is an open one of `u`. */
  predicate OpenOf(s: State, u: Id, sid: Id) { sid in s.rows && s.rows[sid].user == u && !s.rows[sid].revoked }

  /** The sessions of `u` end in both stores, everybody else's are as they were. */
  ghost predicate EndsSessions(s: State, s': State, u: Id) {
    && s'.rows.Keys == s.rows.Keys
    && (forall sid | sid in s.rows :: s'.rows[sid] == if s.rows[sid].user == u then s.rows[sid].(revoked := true) else s.rows[sid])
    && (forall sid: Id :: sid in s'.sessionKeys <==> sid in s.sessionKeys && !OpenOf(s, u, sid))
    && (forall sid: Id :: sid in s'.refreshKeys <==> sid in s.refreshKeys && !OpenOf(s, u, sid))
    && (forall sid | sid in s'.sessionKeys :: s'.sessionKeys[sid] == s.sessionKeys[sid])
    && (forall sid | sid in s'.refreshKeys :: s'.refreshKeys[sid] == s.refreshKeys[sid])
  }

  ghost predicate SameSessions(s: State, s': State) {
    s'.rows == s.rows && s'.sessionKeys == s.sessionKeys && s'.refreshKeys == s.refreshKeys
  }

  /** Only account `u` is touched. */
  predicate OnlyUser(s: State, s': State, u: Id, v: User)
    requires u in s.users
  {
    s'.users == s.users[u := v]
  }

  predicate AllWell(f: BulkFaults) { f.list && f.tx.Committed? && f.lost == {} }

  lemma BulkEnds(s: State, users: map<Id, User>, resets: map<Id, Reset>, u: Id, f: BulkFaults)
    requires AllWell(f)
    ensures EndsSessions(s, Bulk(s, users, resets, u, {}, f), u)
  {
  }

  /**
   * A bulk revocation under any failures. Rows follow the transaction; keys go
   * only after an acknowledged commit, and then all those of the listed open
   * sessions but the kept one and those whose own deletion had no effect.
   */
  lemma BulkLeaves(s: State, users: map<Id, User>, resets: map<Id, Reset>, u: Id, keep: set<Id>, f: BulkFaults)
    ensures
      var s' := Bulk(s, users, resets, u, keep, f);
      var deletes := f.tx.Committed? && f.list;
      && (forall sid: Id :: sid in s'.sessionKeys <==> sid in s.sessionKeys && !(deletes && OpenOf(s, u, sid) && sid !in keep && sid !in f.lost))
      && (forall sid: Id :: sid in s'.refreshKeys <==> sid in s.refreshKeys && !(deletes && OpenOf(s, u, sid) && sid !in keep && sid !in f.lost))
      && s'.rows.Keys == s.rows.Keys
      && (forall sid | sid in s.rows ::
            s'.rows[sid] == if f.tx.Took() && OpenOf(s, u, sid) && sid !in keep then s.rows[sid].(revoked := true) else s.rows[sid])
      && (f.tx.FailedAt? || f.tx == CommitFailed(false) ==> s'.users == s.users && s'.resets == s.resets)
  {
  }

  /** Ban and disable set their status and end all sessions; unban and enable set the status to active and end none. */
  lemma StatusCallEffect(s: State, t: Id, a: StatusAction, f: BulkFaults)
    requires AllWell(f) && t in s.users && !s.users[t].deleted
    ensures
      var s' := SetStatus(s, t, a, f);
      match a
      case Ban => OnlyUser(s, s', t, s.users[t].(status := Banned)) && EndsSessions(s, s', t)
      case Disable => OnlyUser(s, s', t, s.users[t].(status := Disabled)) && EndsSessions(s, s', t)
      case Unban => OnlyUser(s, s', t, s.users[t].(status := Active)) && SameSessions(s, s')
      case Enable => OnlyUser(s, s', t, s.users[t].(status := Active)) && SameSessions(s, s')
  {
    BulkEnds(s, UpdateLive(s.users, t, s.users[t].(status := a.Target())), s.resets, t, f);
  }

  /** A deleted account keeps its status; its sessions end all the same. */
  lemma StatusOfDeleted(s: State, t: Id, a: StatusAction, f: BulkFaults)
    requires AllWell(f) && t in s.users && s.users[t].deleted
    ensures SetStatus(s, t, a, f).users == s.users && (a.Ban? || a.Disable? ==> EndsSessions(s, SetStatus(s, t, a, f), t))
  {
    BulkEnds(s, UpdateLive(s.users, t, s.users[t].(status := a.Target())), s.resets, t, f);
  }

  lemma DeleteCallEffect(s: State, t: Id, f: BulkFaults)
    requires AllWell(f) && t in s.users
    ensures OnlyUser(s, DeleteUser(s, t, f), t, s.users[t].(deleted := true)) && EndsSessions(s, DeleteUser(s, t, f), t)
  {
    BulkEnds(s, UpdateLive(s.users, t, s.users[t].(deleted := true)), s.resets, t, f);
    assert s.users[t].deleted ==> s.users[t := s.users[t].(deleted := true)] == s.users;
  }

  /** A role change touches the role of a live account and no session: tokens keep the old role until they end. */
  lemma RoleCallEffect(s: State, t: Id, r: Role)
    requires t in s.users
    ensures SameSessions(s, ChangeRole(s, t, r, Committed))
    ensures ChangeRole(s, t, r, Committed).users == if s.users[t].deleted then s.users else s.users[t := s.users[t].(role := r)]
  {
  }

  /** The expiry job revokes exactly the rows past their date. */
  lemma ExpiryJobEffect(s: State)
    ensures
      var s' := RevokeExpired(s);
      && s' == s.(rows := s'.rows) && s'.rows.Keys == s.rows.Keys
      && forall sid | sid in s.rows ::
           s'.rows[sid] == s.rows[sid].(revoked := s.rows[sid].revoked || s.rows[sid].expires < s.clock)
  {
  }

  // ----- which reset tokens work -----

  /** The i-th call issued reset token `tok` to `u`, valid for `ttl` seconds. */
  ghost predicate Requests(s: State, calls: seq<Call>, i: nat, u: Id, tok: Secret, ttl: nat) {
    i < |calls| && calls[i].CRequestReset? && calls[i].insert.Took() && calls[i].user == u && calls[i].ttl == ttl && At(s, calls, i).next + 1 == tok
  }

  /** Some call after the i-th and before the k-th took effect with the token. */
  ghost predicate RedeemedBetween(s: State, calls: seq<Call>, i: nat, k: nat, tok: Secret) {
    exists j: nat :: i < j < k && Redeems(s, calls, j, tok)
  }

  /** The row of an issued token, ever after. */
  lemma {:induction false} ResetRowAt(s: State, calls: seq<Call>, i: nat, k: nat, u: Id, tok: Secret, ttl: nat)
    requires s.resets == map[] && i < k <= |calls| && Requests(s, calls, i, u, tok, ttl)
    ensures
      var x := At(s, calls, k);
      && tok - 1 in x.resets
      && x.resets[tok - 1] == Reset(u, tok, At(s, calls, i).clock + ttl, x.resets[tok - 1].used)
      && (x.resets[tok - 1].used <==> RedeemedBetween(s, calls, i, k, tok))
    decreases k
  {
    var y, c := At(s, calls, k - 1), calls[k - 1];
    ResetsOkAt(s, calls, k - 1);
    if i == k - 1 {
      assert At(s, calls, k).resets == y.resets[y.next := Reset(u, y.next + 1, y.clock + ttl, false)];
    } else {
      ResetRowAt(s, calls, i, k - 1, u, tok, ttl);
      ResetRowStep(s, calls, i, k, u, tok);
    }
  }

  lemma ResetRowStep(s: State, calls: seq<Call>, i: nat, k: nat, u: Id, tok: Secret)
    requires 0 < k <= |calls| && i < k - 1 && ResetsOk(At(s, calls, k - 1))
    requires tok >= 1 && tok - 1 in At(s, calls, k - 1).resets && At(s, calls, k - 1).resets[tok - 1].hash == tok
    requires At(s, calls, k - 1).resets[tok - 1].used <==> RedeemedBetween(s, calls, i, k - 1, tok)
    ensures
      var y, x := At(s, calls, k - 1), At(s, calls, k);
      && tok - 1 in x.resets && x.resets[tok - 1] == y.resets[tok - 1].(used := x.resets[tok - 1].used)
      && (x.resets[tok - 1].used <==> RedeemedBetween(s, calls, i, k, tok))
  {
    var y, c, x := At(s, calls, k - 1), calls[k - 1], At(s, calls, k);
    ResetRowCall(y, c, tok - 1);
    assert Redeems(s, calls, k - 1, tok) <==>
        (c.CResetPassword? && c.tok == tok && c.reset == tok - 1 && ResetRefusal(y, c.reset, tok, c.checks).None? && c.bulk.tx.Took()) by {
      if Redeems(s, calls, k - 1, tok) { assert y.resets[c.reset].hash == tok; }
    }
    if RedeemedBetween(s, calls, i, k, tok) && !Redeems(s, calls, k - 1, tok) {
      var j: nat :| i < j < k && Redeems(s, calls, j, tok);
      assert j < k - 1;
    }
    if RedeemedBetween(s, calls, i, k - 1, tok) {
      var j: nat :| i < j < k - 1 && Redeems(s, calls, j, tok);
      assert j < k;
    }
  }

  /** What one call does to one reset row. */
  lemma ResetRowCall(s: State, c: Call, id: Id)
    requires ResetsOk(s) && id in s.resets
    ensures
      var s' := Apply(s, c);
      && id in s'.resets && s'.resets[id] == s.resets[id].(used := s'.resets[id].used)
      && (s'.resets[id].used <==>
            (s.resets[id].used || (c.CResetPassword? && c.reset == id && ResetRefusal(s, id, c.tok, c.checks).None? && c.bulk.tx.Took())))
  {
    if c.CSignUp? || c.CLogin? || c.CRefresh? {
      IssuingKeepsResets(s, c);
    } else if c.CRequestReset? || c.CResetPassword? {
    } else {
      RevokingKeepsResets(s, c);
    }
  }

  lemma {:induction false} ResetHasOrigin(s: State, calls: seq<Call>, k: nat, id: Id) returns (i: nat)
    requires s.resets == map[] && k <= |calls| && id in At(s, calls, k).resets
    ensures
      var r := At(s, calls, k).resets[id];
      i < k && r.hash == id + 1 && calls[i].CRequestReset? && Requests(s, calls, i, r.user, id + 1, calls[i].ttl)
  {
    assert At(s, calls, 0) == s;
    ResetsOkAt(s, calls, k - 1);
    if id in At(s, calls, k - 1).resets {
      i := ResetHasOrigin(s, calls, k - 1, id);
      ResetRowCall(At(s, calls, k - 1), calls[k - 1], id);
    } else {
      NewResetRow(At(s, calls, k - 1), calls[k - 1], id);
      i := k - 1;
    }
  }

  lemma NewResetRow(s: State, c: Call, id: Id)
    requires ResetsOk(s) && id !in s.resets && id in Apply(s, c).resets
    ensures c.CRequestReset? && c.insert.Took() && id == s.next && Apply(s, c).resets[id].hash == id + 1 && Apply(s, c).resets[id].user == c.user
  {
    if c.CSignUp? || c.CLogin? || c.CRefresh? {
      IssuingKeepsResets(s, c);
    } else if c.CRequestReset? || c.CResetPassword? {
    } else {
      RevokingKeepsResets(s, c);
    }
  }

  /** Token `tok` was issued to `u` by the i-th call, is still within its lifetime, and has not been used. */
  ghost predicate Pending(s: State, calls: seq<Call>, i: nat, k: nat, u: Id, tok: Secret, ttl: nat)
    requires k <= |calls|
  {
    && i < k && Requests(s, calls, i, u, tok, ttl) && At(s, calls, k).clock < At(s, calls, i).clock + ttl
    && !RedeemedBetween(s, calls, i, k, tok)
  }

  const ALL_CHECKS := PasswordChecks(true, true, true, true, true)

  lemma AcceptedIsPending(s: State, calls: seq<Call>, k: nat, tok: Secret, id: Id) returns (i: nat, u: Id, ttl: nat)
    requires s.resets == map[] && k <= |calls| && ResetRefusal(At(s, calls, k), id, tok, ALL_CHECKS).None?
    ensures Pending(s, calls, i, k, u, tok, ttl) && LoginRefusal(At(s, calls, k), u).None?
  {
    i := ResetHasOrigin(s, calls, k, id);
    u, ttl := At(s, calls, k).resets[id].user, calls[i].ttl;
    ResetRowAt(s, calls, i, k, u, tok, ttl);
  }

  lemma PendingIsAccepted(s: State, calls: seq<Call>, i: nat, k: nat, u: Id, tok: Secret, ttl: nat)
    requires s.resets == map[] && k <= |calls| && Pending(s, calls, i, k, u, tok, ttl) && LoginRefusal(At(s, calls, k), u).None?
    ensures ResetRefusal(At(s, calls, k), tok - 1, tok, ALL_CHECKS).None?
  {
    ResetRowAt(s, calls, i, k, u, tok, ttl);
  }

  /**
   * In every run, whatever failed: a reset with token `tok` goes ahead exactly
   * if the token was issued by an earlier request for a user who may log in,
   * less than its lifetime ago, and no reset in between took effect with it.
   */
  lemma ResetGoesAheadIff(s: State, calls: seq<Call>, k: nat, tok: Secret)
    requires s.resets == map[] && k <= |calls|
    ensures
      (exists id :: ResetRefusal(At(s, calls, k), id, tok, ALL_CHECKS).None?) <==>
      (exists i: nat, u: Id, ttl: nat :: Pending(s, calls, i, k, u, tok, ttl) && LoginRefusal(At(s, calls, k), u).None?)
  {
    if exists id :: ResetRefusal(At(s, calls, k), id, tok, ALL_CHECKS).None? {
      var id :| ResetRefusal(At(s, calls, k), id, tok, ALL_CHECKS).None?;
      var i, u, ttl := AcceptedIsPending(s, calls, k, tok, id);
    }
    if exists i: nat, u: Id, ttl: nat :: Pending(s, calls, i, k, u, tok, ttl) && LoginRefusal(At(s, calls, k), u).None? {
      var i: nat, u: Id, ttl: nat :| Pending(s, calls, i, k, u, tok, ttl) && LoginRefusal(At(s, calls, k), u).None?;
      PendingIsAccepted(s, calls, i, k, u, tok, ttl);
    }
  }
}
