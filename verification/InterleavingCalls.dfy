/** What single calls of the small-step machine do: bulk revocation against everything else in flight, and a refresh left to itself. */
module InterleavingCalls {
  import opened Base
  import opened Interleaving

  // ----- bulk revocation -----

  /** Session `sid` is one a bulk call for `u` is to end. */
  predicate Target(d: Db, u: UserId, keep: Option<SessionId>, sid: SessionId) {
    sid in d.rows && d.rows[sid].user == u && keep != Some(sid)
  }

  /** The row after a revocation at `now`: an earlier revocation keeps its instant. */
  function RevokedRow(r: Row, now: Time): Row { r.(revokedAt := Some(match r.revokedAt case None => now case Some(t) => t)) }

  /** When the bulk update takes effect, every row of the user but the kept one is revoked, at that instant or since before; no other row and no key changes. */
  lemma BulkRevokeStep(s: State, id: CallId, io: Write, choice: nat)
    requires id in s.calls && s.calls[id].BulkRevoke? && io.Took()
    ensures
      var s', u, keep := Step(s, Move(id, io, choice)), s.calls[id].user, s.calls[id].keep;
      && s'.db.rows.Keys == s.db.rows.Keys
      && (forall sid | sid in s.db.rows ::
            s'.db.rows[sid] == if Target(s.db, u, keep, sid) then RevokedRow(s.db.rows[sid], s.db.clock) else s.db.rows[sid])
      && s'.db == s.db.(rows := s'.db.rows)
  {
  }

  /** A failed listing does not stop the revocation; it only leaves the keys. */
  lemma FailedListingStillRevokes(s: State, id: CallId, u: UserId, keep: Option<SessionId>, io: Write)
    requires id in s.calls && s.calls[id] == BulkList(u, keep) && !io.Acked()
    ensures
      var s' := Step(Step(s, Move(id, io, 0)), Move(id, Applied, 0));
      && (forall sid | Target(s.db, u, keep, sid) :: sid in s'.db.rows && s'.db.rows[sid] == RevokedRow(s.db.rows[sid], s.db.clock))
      && s'.db.sessionKeys == s.db.sessionKeys && s'.db.refreshKeys == s.db.refreshKeys
  {
  }

  /** If the update is reported as failed the call ends without deleting a key, even if the rows were revoked. */
  lemma UnacknowledgedRevocationEnds(s: State, id: CallId, io: Write, choice: nat)
    requires id in s.calls && s.calls[id].BulkRevoke? && !io.Acked()
    ensures
      var s' := Step(s, Move(id, io, choice));
      && s'.calls[id] == Idle && s'.db.sessionKeys == s.db.sessionKeys && s'.db.refreshKeys == s.db.refreshKeys
      && (io.Lost? ==> s'.db == s.db)
  {
  }

  /** A cleanup job revokes exactly the rows it selects that were still open. */
  lemma CronStep(s: State, ids: set<SessionId>)
    ensures
      var s' := Step(s, Cron(ids));
      && s' == s.(db := s.db.(rows := s'.db.rows)) && s'.db.rows.Keys == s.db.rows.Keys
      && forall sid | sid in s.db.rows :: s'.db.rows[sid] == if sid in ids then RevokedRow(s.db.rows[sid], s.db.clock) else s.db.rows[sid]
  {
  }

  /** A login whose row insert failed takes its keys back and hands out nothing. */
  lemma FailedLoginUndone(s: State, id: CallId, t: Token, h: Hash)
    requires id in s.calls && s.calls[id] == LoginInsert(t, h)
    ensures
      var s' := Step(Step(s, Move(id, Lost, 0)), Move(id, Applied, 0));
      && t.sid !in s'.db.sessionKeys && t.sid !in s'.db.refreshKeys
      && s'.db.rows == s.db.rows && s'.db.returned == s.db.returned
  {
  }

  /** The deletions of a bulk call, in some order. */
  function Deletions(id: CallId, order: seq<SessionId>): seq<Action> {
    if order == [] then [] else Deletions(id, order[..|order| - 1]) + [Move(id, Applied, order[|order| - 1])]
  }

  ghost predicate NoRepeats(order: seq<SessionId>) { forall i, j | 0 <= i < j < |order| :: order[i] != order[j] }

  function Members(order: seq<SessionId>): set<SessionId> { set x | x in order }

  lemma {:induction false} DeletionsRun(s: State, id: CallId, order: seq<SessionId>)
    requires id in s.calls && s.calls[id].BulkDelete? && Members(order) <= s.calls[id].ids && NoRepeats(order)
    ensures
      Run(s, Deletions(id, order)) ==
      State(s.db.(sessionKeys := s.db.sessionKeys - Members(order), refreshKeys := s.db.refreshKeys - Members(order)),
            s.calls[id := BulkDelete(s.calls[id].ids - Members(order))])
  {
    if order == [] {
      assert Members(order) == {};
      assert s.db.sessionKeys - {} == s.db.sessionKeys && s.db.refreshKeys - {} == s.db.refreshKeys;
      assert s.calls[id].ids - {} == s.calls[id].ids && s.calls[id := s.calls[id]] == s.calls;
    } else {
      var front, x := order[..|order| - 1], order[|order| - 1];
      assert order == front + [x] && x !in front && x in Members(order);
      assert Members(order) == Members(front) + {x};
      DeletionsRun(s, id, front);
      var moves := Deletions(id, front);
      assert (moves + [Move(id, Applied, x)])[..|moves|] == moves;
      DeletionRuns(s, id, Members(front), x);
    }
  }

  lemma DeletionRuns(s: State, id: CallId, done: set<SessionId>, x: SessionId)
    requires id in s.calls && s.calls[id].BulkDelete? && x in s.calls[id].ids && x !in done
    ensures
      var s1 := State(s.db.(sessionKeys := s.db.sessionKeys - done, refreshKeys := s.db.refreshKeys - done),
                      s.calls[id := BulkDelete(s.calls[id].ids - done)]);
      Step(s1, Move(id, Applied, x)) ==
      State(s.db.(sessionKeys := s.db.sessionKeys - (done + {x}), refreshKeys := s.db.refreshKeys - (done + {x})),
            s.calls[id := BulkDelete(s.calls[id].ids - (done + {x}))])
  {
    var s1 := State(s.db.(sessionKeys := s.db.sessionKeys - done, refreshKeys := s.db.refreshKeys - done),
                    s.calls[id := BulkDelete(s.calls[id].ids - done)]);
    Advance(s1, id, Applied, x);
    assert x in s1.calls[id].ids;
    assert s1.db.sessionKeys - {x} == s.db.sessionKeys - (done + {x}) && s1.db.refreshKeys - {x} == s.db.refreshKeys - (done + {x});
    assert s1.calls[id].ids - {x} == s.calls[id].ids - (done + {x});
  }

  /** A bulk call without failures: the listing, the update, and the deletions of the listed sessions in the given order. */
  function BulkSteps(id: CallId, u: UserId, keep: Option<SessionId>, order: seq<SessionId>): seq<Action> {
    [Start(id, BulkList(u, keep)), Move(id, Applied, 0), Move(id, Applied, 0)] + Deletions(id, order)
  }

  lemma BulkEnters(s: State, id: CallId, u: UserId, keep: Option<SessionId>)
    requires id !in s.calls
    ensures
      Run(s, [Start(id, BulkList(u, keep)), Move(id, Applied, 0), Move(id, Applied, 0)]) ==
      State(RevokeRows(s.db, Without(OwnedBy(s.db, u), keep)), s.calls[id := BulkDelete(Without(ActiveOf(s.db, u), keep))])
  {
    RunThree(s, Start(id, BulkList(u, keep)), Move(id, Applied, 0), Move(id, Applied, 0));
    var s1 := State(s.db, s.calls[id := BulkList(u, keep)]);
    Advance(s1, id, Applied, 0);
    var s2 := State(s.db, s.calls[id := BulkRevoke(u, keep, ActiveOf(s.db, u))]);
    assert Step(s1, Move(id, Applied, 0)) == s2;
    Advance(s2, id, Applied, 0);
  }

  /** The whole effect of such a call on the stores. */
  lemma BulkRuns(s: State, id: CallId, u: UserId, keep: Option<SessionId>, order: seq<SessionId>)
    requires id !in s.calls && NoRepeats(order) && forall x :: x in order <==> Target(s.db, u, keep, x) && !Revoked(s.db, x)
    ensures
      var s', gone := Run(s, BulkSteps(id, u, keep, order)), Members(order);
      && s'.db.rows.Keys == s.db.rows.Keys
      && (forall sid | sid in s.db.rows ::
            s'.db.rows[sid] == if Target(s.db, u, keep, sid) then RevokedRow(s.db.rows[sid], s.db.clock) else s.db.rows[sid])
      && s'.db == s.db.(rows := s'.db.rows, sessionKeys := s.db.sessionKeys - gone, refreshKeys := s.db.refreshKeys - gone)
      && id in s'.calls && s'.calls[id].BulkDelete? && s'.calls == s.calls[id := s'.calls[id]]
  {
    var enter := [Start(id, BulkList(u, keep)), Move(id, Applied, 0), Move(id, Applied, 0)];
    var s1 := State(RevokeRows(s.db, Without(OwnedBy(s.db, u), keep)), s.calls[id := BulkDelete(Without(ActiveOf(s.db, u), keep))]);
    RunAppend(s, enter, Deletions(id, order));
    BulkEnters(s, id, u, keep);
    UserRowsRevoked(s.db, u, keep);
    ListedAreActive(s.db, u, keep, order);
    DeletionsRun(s1, id, order);
  }

  lemma ListedAreActive(d: Db, u: UserId, keep: Option<SessionId>, order: seq<SessionId>)
    requires forall x :: x in order <==> Target(d, u, keep, x) && !Revoked(d, x)
    ensures Members(order) == Without(ActiveOf(d, u), keep)
  {
  }

  lemma UserRowsRevoked(d: Db, u: UserId, keep: Option<SessionId>)
    ensures
      var rows := RevokeRows(d, Without(OwnedBy(d, u), keep)).rows;
      && rows.Keys == d.rows.Keys
      && forall sid | sid in d.rows :: rows[sid] == if Target(d, u, keep, sid) then RevokedRow(d.rows[sid], d.clock) else d.rows[sid]
  {
  }

  /**
   * Which sessions a bulk call without failures closes for good. A session of
   * the user other than the kept one is closed afterwards if and only if no
   * call in flight may still write its key and it was not a revoked session
   * with a live key left over from before, which the listing does not name.
   */
  lemma BulkClosesIff(s: State, id: CallId, u: UserId, keep: Option<SessionId>, order: seq<SessionId>, sid: SessionId)
    requires id !in s.calls && NoRepeats(order) && forall x :: x in order <==> Target(s.db, u, keep, x) && !Revoked(s.db, x)
    requires Target(s.db, u, keep, sid)
    ensures
      Closed(Run(s, BulkSteps(id, u, keep, order)), sid) <==>
        && (forall c | c in s.calls :: !WillReopen(s.db, s.calls[c], sid))
        && !(Revoked(s.db, sid) && LiveSession(s.db, sid))
  {
    var s' := Run(s, BulkSteps(id, u, keep, order));
    BulkRuns(s, id, u, keep, order);
    assert Revoked(s'.db, sid);
    assert sid in Members(order) <==> !Revoked(s.db, sid);
    assert LiveSession(s'.db, sid) <==> Revoked(s.db, sid) && LiveSession(s.db, sid);
    assert forall c | c in s.calls :: c in s'.calls && s'.calls[c] == s.calls[c];
  }

  /** In particular: no token of any open session of a banned, deleted or logged-out user verifies again, unless a refresh was in flight. */
  lemma BulkEndsOpenSessions(s: State, id: CallId, u: UserId, keep: Option<SessionId>, order: seq<SessionId>, sid: SessionId, future: seq<Action>)
    requires Inv(s) && id !in s.calls && NoRepeats(order) && forall x :: x in order <==> Target(s.db, u, keep, x) && !Revoked(s.db, x)
    requires Target(s.db, u, keep, sid) && !Revoked(s.db, sid) && forall c | c in s.calls :: !WillReopen(s.db, s.calls[c], sid)
    ensures forall t: Token | t.sid == sid :: !Verifies(Run(s, BulkSteps(id, u, keep, order) + future).db, t)
  {
    BulkClosesIff(s, id, u, keep, order, sid);
    RunKeepsInv(s, BulkSteps(id, u, keep, order));
    RunAppend(s, BulkSteps(id, u, keep, order), future);
    ClosedForever(Run(s, BulkSteps(id, u, keep, order)), future, sid);
  }

  /** The kept session is left as it was, in row and keys. */
  lemma BulkSparesTheKept(s: State, id: CallId, u: UserId, keep: SessionId, order: seq<SessionId>)
    requires id !in s.calls && NoRepeats(order) && forall x :: x in order <==> Target(s.db, u, Some(keep), x) && !Revoked(s.db, x)
    ensures
      var s' := Run(s, BulkSteps(id, u, Some(keep), order));
      && (keep in s'.db.rows <==> keep in s.db.rows) && (keep in s.db.rows ==> s'.db.rows[keep] == s.db.rows[keep])
      && (LiveSession(s'.db, keep) <==> LiveSession(s.db, keep)) && (LiveRefresh(s'.db, keep) <==> LiveRefresh(s.db, keep))
  {
    BulkRuns(s, id, u, Some(keep), order);
    assert keep !in Members(order);
  }

  // ----- a refresh left to itself -----

  /** The stores and the program counter after `n` undisturbed moves without failures, with every random choice equal to `h`. */
  function Solo(d: Db, pc: Pc, h: Hash, n: nat): (Db, Pc)
    decreases n
  {
    if n == 0 then (d, pc) else Solo(Effect(d, pc, Applied, h), Next(d, pc, Applied, h), h, n - 1)
  }

  function Moves(id: CallId, h: Hash, n: nat): seq<Action> { if n == 0 then [] else [Move(id, Applied, h)] + Moves(id, h, n - 1) }

  lemma {:induction false} SoloIsRun(s: State, id: CallId, h: Hash, n: nat)
    requires id in s.calls
    ensures Run(s, Moves(id, h, n)) == State(Solo(s.db, s.calls[id], h, n).0, s.calls[id := Solo(s.db, s.calls[id], h, n).1])
    decreases n
  {
    if n == 0 {
      assert s.calls[id := s.calls[id]] == s.calls;
    } else {
      RunSplit(s, Move(id, Applied, h), Moves(id, h, n - 1));
      Advance(s, id, Applied, h);
      SoloIsRun(Step(s, Move(id, Applied, h)), id, h, n - 1);
    }
  }

  lemma {:induction false} IdleRests(d: Db, h: Hash, n: nat)
    ensures Solo(d, Idle, h, n) == (d, Idle)
    decreases n
  {
    if n > 0 { IdleRests(d, h, n - 1); }
  }

  /** What a refresh presenting `tok` finds. */
  predicate Matches(d: Db, sid: SessionId, user: UserId, tok: Hash) {
    && sid in d.refreshKeys && d.clock < d.refreshKeys[sid].exp && d.refreshKeys[sid].hash == tok
    && sid in d.rows && d.rows[sid] == Row(user, tok, None) && user in d.usable
  }

  /** The session is there to compare with, but something differs. */
  predicate Mismatches(d: Db, sid: SessionId, user: UserId, tok: Hash) {
    && sid in d.refreshKeys && d.clock < d.refreshKeys[sid].exp
    && (d.refreshKeys[sid].hash != tok || (sid in d.rows && (d.rows[sid] != Row(user, tok, None) || user !in d.usable)))
  }

  lemma RotateTail(d: Db, t: Token, h: Hash)
    requires t.sid in d.rows && d.rows[t.sid].revokedAt.None?
    ensures Solo(d, RefreshSetRefresh(t), h, 2) ==
            (d.(refreshKeys := d.refreshKeys[t.sid := RefreshKey(h, d.clock + REFRESH_TTL)],
                rows := d.rows[t.sid := d.rows[t.sid].(hash := h)], returned := d.returned + {t}), Idle)
  {
    var d1 := PutRefresh(d, t.sid, h);
    assert Solo(d, RefreshSetRefresh(t), h, 2) == Solo(d1, RefreshRotate(t, h), h, 1);
    RotateEffect(d1, t, h);
    var d2 := Effect(d1, RefreshRotate(t, h), Applied, h);
    assert Solo(d1, RefreshRotate(t, h), h, 1) == Solo(d2, Idle, h, 0);
  }

  lemma RotateEffect(d: Db, t: Token, h: Hash)
    requires t.sid in d.rows && d.rows[t.sid].revokedAt.None?
    ensures Effect(d, RefreshRotate(t, h), Applied, h) == d.(rows := d.rows[t.sid := d.rows[t.sid].(hash := h)], returned := d.returned + {t})
  {
  }

  lemma RefreshTail(d: Db, sid: SessionId, user: UserId, h: Hash)
    requires sid in d.rows && d.rows[sid].revokedAt.None?
    ensures
      var t := Token(sid, user, d.clock);
      Solo(d, RefreshClaims(sid, user), h, 4) ==
      (d.(sessionKeys := d.sessionKeys[sid := d.clock + ACCESS_TTL], refreshKeys := d.refreshKeys[sid := RefreshKey(h, d.clock + REFRESH_TTL)],
          rows := d.rows[sid := d.rows[sid].(hash := h)], returned := d.returned + {t}), Idle)
  {
    var t := Token(sid, user, d.clock);
    var d1 := PutSession(d, t);
    assert Solo(d, RefreshClaims(sid, user), h, 4) == Solo(d, RefreshSetSession(t), h, 3);
    assert Solo(d, RefreshSetSession(t), h, 3) == Solo(d1, RefreshSetRefresh(t), h, 2);
    RotateTail(d1, t, h);
  }

  lemma KillTail(d: Db, sid: SessionId, h: Hash, n: nat)
    requires n >= 2
    ensures Solo(d, KillKeys(sid), h, n) == (RevokeRows(DropKeys(d, sid), {sid}), Idle)
  {
    var d1 := DropKeys(d, sid);
    var d2 := RevokeRows(d1, {sid});
    IdleRests(d2, h, n - 2);
    assert Solo(d1, KillRow(sid), h, n - 1) == Solo(d2, Idle, h, n - 2);
    assert Solo(d, KillKeys(sid), h, n) == Solo(d1, KillRow(sid), h, n - 1);
  }

  /**
   * An undisturbed refresh without failures, from any stores. If key, row and
   * account match, the new secret is in both stores and a token of the row's
   * user is handed out; if something differs, row and keys end; if there is
   * nothing to compare with, nothing changes.
   */
  lemma SoloRefresh(d: Db, sid: SessionId, user: UserId, tok: Hash, h: Hash)
    ensures
      var d' := Solo(d, RefreshGet(sid, user, tok), h, 7).0;
      if Matches(d, sid, user, tok) then
        d' == d.(sessionKeys := d.sessionKeys[sid := d.clock + ACCESS_TTL], refreshKeys := d.refreshKeys[sid := RefreshKey(h, d.clock + REFRESH_TTL)],
                 rows := d.rows[sid := Row(user, h, None)], returned := d.returned + {Token(sid, user, d.clock)})
      else if Mismatches(d, sid, user, tok) then
        && sid !in d'.sessionKeys && sid !in d'.refreshKeys && d'.returned == d.returned
        && (sid in d.rows ==> sid in d'.rows && d'.rows[sid] == RevokedRow(d.rows[sid], d.clock))
      else d' == d
    ensures Solo(d, RefreshGet(sid, user, tok), h, 7).1 == Idle
  {
    var p1 := Next(d, RefreshGet(sid, user, tok), Applied, h);
    assert Solo(d, RefreshGet(sid, user, tok), h, 7) == Solo(d, p1, h, 6);
    IdleRests(d, h, 6);
    if p1.KillKeys? { KillTail(d, sid, h, 6); }
    if p1.RefreshRow? {
      var p2 := Next(d, p1, Applied, h);
      assert Solo(d, p1, h, 6) == Solo(d, p2, h, 5);
      IdleRests(d, h, 5);
      if p2.KillKeys? { KillTail(d, sid, h, 5); }
      if p2.RefreshUser? {
        var p3 := Next(d, p2, Applied, h);
        assert Solo(d, p2, h, 5) == Solo(d, p3, h, 4);
        if p3.KillKeys? { KillTail(d, sid, h, 4); }
        if p3.RefreshClaims? { RefreshTail(d, sid, user, h); }
      }
    }
  }
}
