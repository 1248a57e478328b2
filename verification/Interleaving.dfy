/**
 * The session protocol as a small-step machine. Every store access of refresh,
 * login, logout, bulk revocation and the cron jobs is one step; any number of
 * calls run at once, their steps interleave in any order, any write may be
 * lost or reported as failed after taking effect, and a call may stop forever.
 */
module Interleaving {
  import opened Base

  type SessionId = nat
  type UserId = nat
  type Hash = nat
  type CallId = nat

  /** The access JWT: session, user and the instant put into its `iat` claim. */
  datatype Token = Token(sid: SessionId, user: UserId, signedAt: Time) {
    function Exp(): Time { signedAt + ACCESS_TTL }
  }

  /** `revokedAt` is the instant the row's `revoked` column became true. */
  datatype Row = Row(user: UserId, hash: Hash, revokedAt: Option<Time>)

  datatype RefreshKey = RefreshKey(hash: Hash, exp: Time)

  /** The program counter of one call, with the locals the rest of it needs. */
  datatype Pc =
    | Idle
    | RefreshGet(sid: SessionId, user: UserId, supplied: Hash)
    | RefreshRow(sid: SessionId, user: UserId, supplied: Hash)
    | RefreshUser(sid: SessionId, user: UserId)
    | RefreshClaims(sid: SessionId, user: UserId)
    | RefreshSetSession(token: Token)
    | RefreshSetRefresh(token: Token)
    | RefreshRotate(token: Token, hash: Hash)
    | LoginClaims(user: UserId)
    | LoginSetSession(token: Token)
    | LoginSetRefresh(token: Token)
    | LoginInsert(token: Token, hash: Hash)
    | LoginUndo(sid: SessionId)
    | KillKeys(sid: SessionId)
    | KillRow(sid: SessionId)
    | BulkList(user: UserId, keep: Option<SessionId>)
    | BulkRevoke(user: UserId, keep: Option<SessionId>, ids: set<SessionId>)
    | BulkDelete(ids: set<SessionId>)
  {
    /** The entry points: refresh, login, logout, and the bulk revocations of reset, change and admin calls. */
    predicate Entry() { RefreshGet? || LoginClaims? || KillKeys? || BulkList? }

    /** A token already stamped with its signing time but not yet handed to the caller. */
    predicate Carries() {
      RefreshSetSession? || RefreshSetRefresh? || RefreshRotate? || LoginSetSession? || LoginSetRefresh? || LoginInsert?
    }

    /** The call can still write `session:id`: it has passed the row check, or is a login on that id. */
    predicate MayReopen(id: SessionId) {
      || ((RefreshUser? || RefreshClaims?) && sid == id)
      || ((RefreshSetSession? || LoginSetSession?) && token.sid == id)
    }
  }

  /** The two stores, the clock, and what callers have been given. */
  datatype Db = Db(
    clock: Time,
    rows: map<SessionId, Row>,
    sessionKeys: map<SessionId, Time>,
    refreshKeys: map<SessionId, RefreshKey>,
    usable: set<UserId>,
    usedIds: set<SessionId>,
    returned: set<Token>)

  datatype State = State(db: Db, calls: map<CallId, Pc>)

  /** One step of the system; `choice` resolves the random and unordered choices. */
  datatype Action =
    | Tick(seconds: nat)
    | Start(id: CallId, entry: Pc)
    | Move(id: CallId, io: Write, choice: nat)
    | Cron(ids: set<SessionId>)
    | SetUsable(user: UserId, isUsable: bool)

  // ----- store operations -----

  predicate Revoked(d: Db, sid: SessionId) { sid in d.rows && d.rows[sid].revokedAt.Some? }

  predicate LiveSession(d: Db, sid: SessionId) { sid in d.sessionKeys && d.clock < d.sessionKeys[sid] }

  predicate LiveRefresh(d: Db, sid: SessionId) { sid in d.refreshKeys && d.clock < d.refreshKeys[sid].exp }

  /** `UPDATE sessions SET revoked = TRUE WHERE id IN ids AND revoked = FALSE`. */
  function RevokeRows(d: Db, ids: set<SessionId>): Db {
    d.(rows := map sid | sid in d.rows ::
      if sid in ids && d.rows[sid].revokedAt.None? then d.rows[sid].(revokedAt := Some(d.clock)) else d.rows[sid])
  }

  function DropKeys(d: Db, sid: SessionId): Db {
    d.(sessionKeys := d.sessionKeys - {sid}, refreshKeys := d.refreshKeys - {sid})
  }

  /** `GenerateSession`: a key that would already be expired is not written at all. */
  function PutSession(d: Db, t: Token): Db {
    if t.Exp() <= d.clock then d else d.(sessionKeys := d.sessionKeys[t.sid := t.Exp()])
  }

  function PutRefresh(d: Db, sid: SessionId, hash: Hash): Db {
    d.(refreshKeys := d.refreshKeys[sid := RefreshKey(hash, d.clock + REFRESH_TTL)])
  }

  function OwnedBy(d: Db, u: UserId): set<SessionId> {
    set sid | sid in d.rows && d.rows[sid].user == u
  }

  function ActiveOf(d: Db, u: UserId): set<SessionId> {
    set sid | sid in d.rows && d.rows[sid].user == u && d.rows[sid].revokedAt.None?
  }

  function Without(ids: set<SessionId>, keep: Option<SessionId>): set<SessionId> {
    match keep case None => ids case Some(k) => ids - {k}
  }

  /** The guard of the last refresh statement, `WHERE id = $3 AND revoked = FALSE`. */
  predicate RotateHits(d: Db, sid: SessionId) { sid in d.rows && d.rows[sid].revokedAt.None? }

  // ----- transitions -----

  /** What the next store access of a call at `pc` does to the stores. */
  function Effect(d: Db, pc: Pc, io: Write, choice: nat): Db {
    if pc.LoginClaims? then d.(usedIds := d.usedIds + {choice})
    else if !io.Took() then d
    else match pc
      case RefreshSetSession(t) => PutSession(d, t)
      case LoginSetSession(t) => PutSession(d, t)
      case RefreshSetRefresh(t) => PutRefresh(d, t.sid, choice)
      case LoginSetRefresh(t) => PutRefresh(d, t.sid, choice)
      case RefreshRotate(t, hash) =>
        if !RotateHits(d, t.sid) then d
        else d.(rows := d.rows[t.sid := d.rows[t.sid].(hash := hash)],
                returned := if io.Acked() then d.returned + {t} else d.returned)
      case LoginInsert(t, hash) =>
        if t.sid in d.rows then d
        else d.(rows := d.rows[t.sid := Row(t.user, hash, None)],
                returned := if io.Acked() then d.returned + {t} else d.returned)
      case LoginUndo(sid) => DropKeys(d, sid)
      case KillKeys(sid) => DropKeys(d, sid)
      case KillRow(sid) => RevokeRows(d, {sid})
      case BulkRevoke(u, keep, _) => RevokeRows(d, Without(OwnedBy(d, u), keep))
      case BulkDelete(ids) => if choice in ids then DropKeys(d, choice) else d
      case _ => d
  }

  /** Where the call goes after that access. A failed read ends the call; a failed listing goes on with nothing listed. */
  function Next(d: Db, pc: Pc, io: Write, choice: nat): Pc {
    match pc
    case Idle => Idle
    case RefreshGet(sid, user, supplied) =>
      if !io.Acked() || !LiveRefresh(d, sid) then Idle
      else if d.refreshKeys[sid].hash != supplied then KillKeys(sid)
      else RefreshRow(sid, user, supplied)
    case RefreshRow(sid, user, supplied) =>
      if !io.Acked() || sid !in d.rows then Idle
      else if d.rows[sid].revokedAt.Some? || d.rows[sid].user != user || d.rows[sid].hash != supplied then KillKeys(sid)
      else RefreshUser(sid, user)
    case RefreshUser(sid, user) =>
      if !io.Acked() then Idle else if user !in d.usable then KillKeys(sid) else RefreshClaims(sid, user)
    case RefreshClaims(sid, user) => RefreshSetSession(Token(sid, user, d.clock))
    case RefreshSetSession(t) => if io.Acked() then RefreshSetRefresh(t) else Idle
    case RefreshSetRefresh(t) => if io.Acked() then RefreshRotate(t, choice) else Idle
    case RefreshRotate(_, _) => Idle
    case LoginClaims(user) => if choice in d.usedIds then pc else LoginSetSession(Token(choice, user, d.clock))
    case LoginSetSession(t) => if io.Acked() then LoginSetRefresh(t) else Idle
    case LoginSetRefresh(t) => if io.Acked() then LoginInsert(t, choice) else Idle
    case LoginInsert(t, _) => if io.Acked() && t.sid !in d.rows then Idle else LoginUndo(t.sid)
    case LoginUndo(_) => Idle
    case KillKeys(sid) => KillRow(sid)
    case KillRow(_) => Idle
    case BulkList(u, keep) => BulkRevoke(u, keep, if io.Acked() then ActiveOf(d, u) else {})
    case BulkRevoke(_, keep, ids) => if io.Acked() then BulkDelete(Without(ids, keep)) else Idle
    case BulkDelete(ids) => if ids == {} then Idle else BulkDelete(ids - {choice})
  }

  function Step(s: State, a: Action): State {
    match a
    case Tick(d) => s.(db := s.db.(clock := s.db.clock + d))
    case Start(id, pc) => if id !in s.calls && pc.Entry() then s.(calls := s.calls[id := pc]) else s
    case Move(id, io, choice) =>
      if id !in s.calls then s
      else State(Effect(s.db, s.calls[id], io, choice), s.calls[id := Next(s.db, s.calls[id], io, choice)])
    case Cron(ids) => s.(db := RevokeRows(s.db, ids))
    case SetUsable(u, b) => s.(db := s.db.(usable := if b then s.db.usable + {u} else s.db.usable - {u}))
  }

  /** The state after the whole schedule. */
  function Run(s: State, schedule: seq<Action>): State {
    if schedule == [] then s else Step(Run(s, schedule[..|schedule| - 1]), schedule[|schedule| - 1])
  }

  ghost predicate Initial(s: State) {
    s.db.rows == map[] && s.db.sessionKeys == map[] && s.db.refreshKeys == map[] && s.calls == map[] && s.db.returned == {}
  }

  /** An access token passes `VerifyAndParseJWT`: issued to a caller, not expired, and its session key is live. */
  predicate Verifies(d: Db, t: Token) {
    t in d.returned && d.clock < t.Exp() && LiveSession(d, t.sid)
  }

  // ----- what every step keeps -----

  ghost predicate SignedBeforeRevoked(d: Db, t: Token) {
    && t.sid in d.rows
    && t.signedAt <= d.clock
    && (d.rows[t.sid].revokedAt.Some? ==> t.signedAt <= d.rows[t.sid].revokedAt.value)
  }

  ghost predicate DbInv(d: Db) {
    && (forall t | t in d.returned :: SignedBeforeRevoked(d, t))
    && (forall sid | Revoked(d, sid) :: d.rows[sid].revokedAt.value <= d.clock)
    && d.rows.Keys <= d.usedIds
  }

  /** What a call knows between its steps, whatever the others do meanwhile. */
  ghost predicate PcInv(d: Db, pc: Pc) {
    && (pc.Carries() ==> pc.token.signedAt <= d.clock && pc.token.sid in d.usedIds)
    && (pc.RefreshUser? || pc.RefreshClaims? ==> pc.sid in d.rows)
  }

  ghost predicate Inv(s: State) {
    DbInv(s.db) && forall id | id in s.calls :: PcInv(s.db, s.calls[id])
  }

  /** How the stores move under any step: rows stay, revocations stay as they were, time and used ids grow. */
  ghost predicate Grows(d: Db, d': Db) {
    && d.clock <= d'.clock
    && d.usedIds <= d'.usedIds
    && d.rows.Keys <= d'.rows.Keys
    && (forall sid | Revoked(d, sid) :: d'.rows[sid].revokedAt == d.rows[sid].revokedAt)
  }

  lemma RevokeKeepsDbInv(d: Db, ids: set<SessionId>)
    requires DbInv(d)
    ensures DbInv(RevokeRows(d, ids)) && Grows(d, RevokeRows(d, ids))
  {
    var d' := RevokeRows(d, ids);
    forall t | t in d'.returned ensures SignedBeforeRevoked(d', t) { assert SignedBeforeRevoked(d, t); }
  }

  /** The two writes that hand a token to the caller put an unrevoked row. */
  lemma GrantKeepsDbInv(d: Db, t: Token, row: Row, grant: bool)
    requires DbInv(d) && t.signedAt <= d.clock && t.sid in d.usedIds && row.revokedAt.None? && !Revoked(d, t.sid)
    ensures
      var d' := d.(rows := d.rows[t.sid := row], returned := if grant then d.returned + {t} else d.returned);
      DbInv(d') && Grows(d, d')
  {
    var d' := d.(rows := d.rows[t.sid := row], returned := if grant then d.returned + {t} else d.returned);
    forall x | x in d'.returned ensures SignedBeforeRevoked(d', x) {
      if x in d.returned { assert SignedBeforeRevoked(d, x); }
    }
  }

  /** Redis writes touch neither rows nor what was returned. */
  lemma CacheKeepsDbInv(d: Db, d': Db)
    requires DbInv(d) && d'.rows == d.rows && d'.returned == d.returned && d.clock <= d'.clock && d.usedIds <= d'.usedIds
    ensures DbInv(d') && Grows(d, d')
  {
    forall t | t in d'.returned ensures SignedBeforeRevoked(d', t) { assert SignedBeforeRevoked(d, t); }
  }

  lemma EffectKeepsDbInv(d: Db, pc: Pc, io: Write, choice: nat)
    requires DbInv(d) && PcInv(d, pc)
    ensures DbInv(Effect(d, pc, io, choice)) && Grows(d, Effect(d, pc, io, choice))
  {
    var d' := Effect(d, pc, io, choice);
    match pc
    case RefreshRotate(t, hash) =>
      if io.Took() && RotateHits(d, t.sid) { GrantKeepsDbInv(d, t, d.rows[t.sid].(hash := hash), io.Acked()); } else { CacheKeepsDbInv(d, d'); }
    case LoginInsert(t, hash) =>
      if io.Took() && t.sid !in d.rows { GrantKeepsDbInv(d, t, Row(t.user, hash, None), io.Acked()); } else { CacheKeepsDbInv(d, d'); }
    case KillRow(sid) => RevokeKeepsDbInv(d, {sid}); CacheKeepsDbInv(d, d);
    case BulkRevoke(u, keep, _) => RevokeKeepsDbInv(d, Without(OwnedBy(d, u), keep)); CacheKeepsDbInv(d, d);
    case _ => CacheKeepsDbInv(d, d');
  }

  lemma NextKeepsPcInv(d: Db, pc: Pc, io: Write, choice: nat)
    requires DbInv(d) && PcInv(d, pc) && Grows(d, Effect(d, pc, io, choice))
    ensures PcInv(Effect(d, pc, io, choice), Next(d, pc, io, choice))
  {
  }

  lemma StepKeepsInv(s: State, a: Action)
    requires Inv(s)
    ensures Inv(Step(s, a)) && Grows(s.db, Step(s, a).db)
  {
    var s' := Step(s, a);
    if a.Move? && a.id in s.calls {
      EffectKeepsDbInv(s.db, s.calls[a.id], a.io, a.choice);
      NextKeepsPcInv(s.db, s.calls[a.id], a.io, a.choice);
    } else {
      forall t | t in s'.db.returned ensures SignedBeforeRevoked(s'.db, t) {
        assert SignedBeforeRevoked(s.db, t);
      }
    }
  }

  lemma {:induction false} RunKeepsInv(s: State, schedule: seq<Action>)
    requires Inv(s)
    ensures Inv(Run(s, schedule)) && Grows(s.db, Run(s, schedule).db)
  {
    if schedule != [] {
      var front := schedule[..|schedule| - 1];
      RunKeepsInv(s, front);
      StepKeepsInv(Run(s, front), schedule[|schedule| - 1]);
    }
  }

  lemma {:induction false} RunAppend(s: State, a: seq<Action>, b: seq<Action>)
    ensures Run(s, a + b) == Run(Run(s, a), b)
  {
    if b == [] {
      assert a + b == a;
    } else {
      var front := b[..|b| - 1];
      assert (a + b)[..|a + b| - 1] == a + front;
      RunAppend(s, a, front);
    }
  }

  /**
   * The main result. Take any schedule `past` from an empty system, a session
   * whose row is then revoked (at instant r), and any schedule `future`. The row
   * stays revoked at r; every access token of that session handed to any caller,
   * before or after, was signed no later than r; and from r + ACCESS_TTL on none
   * verifies.
   */
  lemma RevocationIsBounded(s0: State, past: seq<Action>, future: seq<Action>, sid: SessionId)
    requires Initial(s0)
    requires Revoked(Run(s0, past).db, sid)
    ensures
      var r := Run(s0, past).db.rows[sid].revokedAt.value;
      var end := Run(s0, past + future).db;
      && Revoked(end, sid) && end.rows[sid].revokedAt == Some(r)
      && (forall t | t in end.returned && t.sid == sid :: t.signedAt <= r)
      && (end.clock >= r + ACCESS_TTL ==> forall t: Token | t.sid == sid :: !Verifies(end, t))
  {
    var mid := Run(s0, past);
    RunKeepsInv(s0, past);
    RunAppend(s0, past, future);
    RunKeepsInv(mid, future);
    var end := Run(s0, past + future).db;
    forall t | t in end.returned && t.sid == sid
      ensures t.signedAt <= mid.db.rows[sid].revokedAt.value
    {
      assert SignedBeforeRevoked(end, t);
    }
  }

  // ----- when revocation is immediate -----

  /** The call can still write `session:id`, and with a key that would not be expired already. */
  predicate WillReopen(d: Db, pc: Pc, sid: SessionId) { pc.MayReopen(sid) && (pc.Carries() ==> d.clock < pc.token.Exp()) }

  /** The row is revoked, the session key is gone or expired, and no call in flight can still write it. */
  ghost predicate Closed(s: State, sid: SessionId) {
    && Revoked(s.db, sid)
    && !LiveSession(s.db, sid)
    && (forall id | id in s.calls :: !WillReopen(s.db, s.calls[id], sid))
  }

  lemma MoveKeepsClosed(d: Db, pc: Pc, io: Write, choice: nat, sid: SessionId)
    requires DbInv(d) && Revoked(d, sid) && !LiveSession(d, sid) && !WillReopen(d, pc, sid)
    ensures !LiveSession(Effect(d, pc, io, choice), sid)
    ensures !WillReopen(Effect(d, pc, io, choice), Next(d, pc, io, choice), sid)
  {
  }

  lemma StepKeepsClosed(s: State, a: Action, sid: SessionId)
    requires Inv(s) && Closed(s, sid)
    ensures Closed(Step(s, a), sid)
  {
    StepKeepsInv(s, a);
    if a.Move? && a.id in s.calls { MoveKeepsClosed(s.db, s.calls[a.id], a.io, a.choice, sid); }
  }

  /** Once closed, a session admits no access token in any later state of any schedule. */
  lemma {:induction false} ClosedForever(s: State, schedule: seq<Action>, sid: SessionId)
    requires Inv(s) && Closed(s, sid)
    ensures Closed(Run(s, schedule), sid)
    ensures forall t: Token | t.sid == sid :: !Verifies(Run(s, schedule).db, t)
  {
    if schedule != [] {
      var front, a := schedule[..|schedule| - 1], schedule[|schedule| - 1];
      ClosedForever(s, front, sid);
      RunKeepsInv(s, front);
      StepKeepsClosed(Run(s, front), a, sid);
    }
  }

  lemma OneStep(s: State, a: Action)
    ensures Run(s, [a]) == Step(s, a)
  {
    assert [a][..0] == [];
    assert Run(s, []) == s;
  }

  /** From a state one step on, a schedule that ends in `held` verifying can be started one step earlier. */
  lemma StepFirst(s: State, a: Action, held: Token)
    requires Step(s, a).db.rows == s.db.rows
    requires exists schedule :: Verifies(Run(Step(s, a), schedule).db, held) && Run(Step(s, a), schedule).db.rows == Step(s, a).db.rows
    ensures exists schedule :: Verifies(Run(s, schedule).db, held) && Run(s, schedule).db.rows == s.db.rows
  {
    var rest :| Verifies(Run(Step(s, a), rest).db, held) && Run(Step(s, a), rest).db.rows == Step(s, a).db.rows;
    OneStep(s, a);
    RunAppend(s, [a], rest);
    assert Verifies(Run(s, [a] + rest).db, held);
  }

  function Distance(s: State, pc: Pc): nat {
    match pc
    case RefreshUser(_, user) => if user in s.db.usable then 2 else 3
    case RefreshClaims(_, _) => 1
    case _ => 0
  }

  /**
   * While a call that may still write the session key is in flight, some
   * schedule makes an older, unexpired token of the session verify again and
   * leaves the rows as they were.
   */
  lemma InFlightRefreshReopens(s: State, id: CallId, held: Token)
    requires id in s.calls && WillReopen(s.db, s.calls[id], held.sid)
    requires held in s.db.returned && s.db.clock < held.Exp()
    ensures exists schedule :: Verifies(Run(s, schedule).db, held) && Run(s, schedule).db.rows == s.db.rows
    decreases Distance(s, s.calls[id])
  {
    var pc := s.calls[id];
    if pc.Carries() {
      var go := Move(id, Applied, 0);
      OneStep(s, go);
      assert Verifies(Run(s, [go]).db, held);
    } else {
      var a := if pc.RefreshUser? && pc.user !in s.db.usable then SetUsable(pc.user, true) else Move(id, Applied, 0);
      InFlightRefreshReopens(Step(s, a), id, held);
      StepFirst(s, a, held);
    }
  }

  lemma StepReturns(s: State, a: Action, t: Token)
    requires Inv(s) && Revoked(s.db, t.sid) && t in Step(s, a).db.returned
    ensures t in s.db.returned
  {
  }

  /** After the revocation no further token of the session is handed to anybody. */
  lemma {:induction false} NothingNewReturned(s: State, schedule: seq<Action>, t: Token)
    requires Inv(s) && Revoked(s.db, t.sid) && t in Run(s, schedule).db.returned
    ensures t in s.db.returned
  {
    if schedule != [] {
      var front, a := schedule[..|schedule| - 1], schedule[|schedule| - 1];
      RunKeepsInv(s, front);
      StepReturns(Run(s, front), a, t);
      NothingNewReturned(s, front, t);
    }
  }

  /** Some access token of the session verifies now or in some future. */
  ghost predicate Reopens(s: State, sid: SessionId) {
    exists schedule, t: Token :: t.sid == sid && Verifies(Run(s, schedule).db, t)
  }

  /**
   * When the revocation of a session is already effective. Some schedule lets a
   * token of it verify if and only if a caller holds an unexpired one and
   * either the session key is still live or a call past its row check may still
   * write it.
   */
  lemma ReopensIff(s: State, sid: SessionId)
    requires Inv(s) && Revoked(s.db, sid)
    ensures Reopens(s, sid) <==>
      (exists held :: held in s.db.returned && held.sid == sid && s.db.clock < held.Exp()) && !Closed(s, sid)
  {
    if Reopens(s, sid) {
      var schedule, t: Token :| t.sid == sid && Verifies(Run(s, schedule).db, t);
      NothingNewReturned(s, schedule, t);
      RunKeepsInv(s, schedule);
      if Closed(s, sid) { ClosedForever(s, schedule, sid); }
    }
    if !Closed(s, sid) && exists held :: held in s.db.returned && held.sid == sid && s.db.clock < held.Exp() {
      var held :| held in s.db.returned && held.sid == sid && s.db.clock < held.Exp();
      if LiveSession(s.db, sid) {
        assert Verifies(Run(s, []).db, held);
      } else {
        var id :| id in s.calls && WillReopen(s.db, s.calls[id], sid);
        InFlightRefreshReopens(s, id, held);
      }
      assert Reopens(s, sid);
    }
  }

  // ----- such a state is reached -----

  /** A login by call `id` that goes through without failures. */
  function LoginSteps(id: CallId, u: UserId, sid: SessionId, h: Hash): seq<Action> {
    [Start(id, LoginClaims(u)), Move(id, Applied, sid), Move(id, Applied, 0), Move(id, Applied, h), Move(id, Applied, 0)]
  }

  lemma LoginRuns(s: State, id: CallId, u: UserId, sid: SessionId, h: Hash)
    requires id !in s.calls && sid !in s.db.usedIds && sid !in s.db.rows
    ensures
      var s', t := Run(s, LoginSteps(id, u, sid, h)), Token(sid, u, s.db.clock);
      && s'.db.clock == s.db.clock && s'.calls == s.calls[id := Idle]
      && sid in s'.db.rows && s'.db.rows[sid] == Row(u, h, None)
      && sid in s'.db.refreshKeys && s'.db.refreshKeys[sid] == RefreshKey(h, s.db.clock + REFRESH_TTL)
      && t in s'.db.returned
  {
    var enter := [Start(id, LoginClaims(u)), Move(id, Applied, sid)];
    var writes := [Move(id, Applied, 0), Move(id, Applied, h), Move(id, Applied, 0)];
    assert LoginSteps(id, u, sid, h) == enter + writes;
    RunAppend(s, enter, writes);
    LoginEnters(s, id, u, sid);
    LoginWrites(Run(s, enter), id, Token(sid, u, s.db.clock), h);
  }

  lemma LoginEnters(s: State, id: CallId, u: UserId, sid: SessionId)
    requires id !in s.calls && sid !in s.db.usedIds
    ensures Run(s, [Start(id, LoginClaims(u)), Move(id, Applied, sid)]) ==
            State(s.db.(usedIds := s.db.usedIds + {sid}), s.calls[id := LoginSetSession(Token(sid, u, s.db.clock))])
  {
    var s1 := State(s.db, s.calls[id := LoginClaims(u)]);
    assert [Start(id, LoginClaims(u))] + [Move(id, Applied, sid)] == [Start(id, LoginClaims(u)), Move(id, Applied, sid)];
    RunSplit(s, Start(id, LoginClaims(u)), [Move(id, Applied, sid)]);
    OneStep(s1, Move(id, Applied, sid));
    Advance(s1, id, Applied, sid);
  }

  lemma LoginWrites(s: State, id: CallId, t: Token, h: Hash)
    requires id in s.calls && s.calls[id] == LoginSetSession(t) && t.sid !in s.db.rows
    ensures
      var s' := Run(s, [Move(id, Applied, 0), Move(id, Applied, h), Move(id, Applied, 0)]);
      && s'.db.clock == s.db.clock && s'.calls == s.calls[id := Idle]
      && t.sid in s'.db.rows && s'.db.rows[t.sid] == Row(t.user, h, None)
      && t.sid in s'.db.refreshKeys && s'.db.refreshKeys[t.sid] == RefreshKey(h, s.db.clock + REFRESH_TTL)
      && t in s'.db.returned
  {
    RunThree(s, Move(id, Applied, 0), Move(id, Applied, h), Move(id, Applied, 0));
    Advance(s, id, Applied, 0);
    var s1 := State(PutSession(s.db, t), s.calls[id := LoginSetRefresh(t)]);
    Advance(s1, id, Applied, h);
    var s2 := State(PutRefresh(s1.db, t.sid, h), s.calls[id := LoginInsert(t, h)]);
    assert Step(s1, Move(id, Applied, h)) == s2;
    Advance(s2, id, Applied, 0);
  }

  /** A call's move, with the call table written once. */
  lemma Advance(s: State, id: CallId, io: Write, choice: nat)
    requires id in s.calls
    ensures Step(s, Move(id, io, choice)) ==
            State(Effect(s.db, s.calls[id], io, choice), s.calls[id := Next(s.db, s.calls[id], io, choice)])
  {
  }

  lemma RunSplit(s: State, a: Action, rest: seq<Action>)
    ensures Run(s, [a] + rest) == Run(Step(s, a), rest)
  {
    OneStep(s, a);
    RunAppend(s, [a], rest);
  }

  lemma RunThree(s: State, a: Action, b: Action, c: Action)
    ensures Run(s, [a, b, c]) == Step(Step(Step(s, a), b), c)
  {
    assert [a] + [b, c] == [a, b, c] && [b] + [c] == [b, c];
    RunSplit(s, a, [b, c]);
    RunSplit(Step(s, a), b, [c]);
    OneStep(Step(Step(s, a), b), c);
  }

  /** A refresh by call `r` past its row check, then a whole logout by call `q`. */
  function LogoutDuringRefresh(r: CallId, q: CallId, u: UserId, sid: SessionId, h: Hash): seq<Action> {
    [Start(r, RefreshGet(sid, u, h)), Move(r, Applied, 0), Move(r, Applied, 0),
     Start(q, KillKeys(sid)), Move(q, Applied, 0), Move(q, Applied, 0)]
  }

  lemma LogoutDuringRefreshRuns(s: State, r: CallId, q: CallId, u: UserId, sid: SessionId, h: Hash)
    requires r !in s.calls && q !in s.calls && r != q
    requires sid in s.db.rows && s.db.rows[sid] == Row(u, h, None)
    requires sid in s.db.refreshKeys && s.db.refreshKeys[sid].hash == h && s.db.clock < s.db.refreshKeys[sid].exp
    ensures
      var s' := Run(s, LogoutDuringRefresh(r, q, u, sid, h));
      && s'.db.clock == s.db.clock && s'.db.returned == s.db.returned
      && Revoked(s'.db, sid) && !LiveSession(s'.db, sid)
      && r in s'.calls && s'.calls[r] == RefreshUser(sid, u)
  {
    var out := [Start(q, KillKeys(sid)), Move(q, Applied, 0), Move(q, Applied, 0)];
    var enter := [Start(r, RefreshGet(sid, u, h)), Move(r, Applied, 0), Move(r, Applied, 0)];
    assert LogoutDuringRefresh(r, q, u, sid, h) == enter + out;
    RunAppend(s, enter, out);
    RefreshEnters(s, r, u, sid, h);
    RunThree(Run(s, enter), out[0], out[1], out[2]);
    LogoutRuns(State(s.db, s.calls[r := RefreshUser(sid, u)]), q, sid);
  }

  lemma RefreshEnters(s: State, r: CallId, u: UserId, sid: SessionId, h: Hash)
    requires r !in s.calls && sid in s.db.rows && s.db.rows[sid] == Row(u, h, None)
    requires sid in s.db.refreshKeys && s.db.refreshKeys[sid].hash == h && s.db.clock < s.db.refreshKeys[sid].exp
    ensures Run(s, [Start(r, RefreshGet(sid, u, h)), Move(r, Applied, 0), Move(r, Applied, 0)]) ==
            State(s.db, s.calls[r := RefreshUser(sid, u)])
  {
    RunThree(s, Start(r, RefreshGet(sid, u, h)), Move(r, Applied, 0), Move(r, Applied, 0));
    var s1 := State(s.db, s.calls[r := RefreshGet(sid, u, h)]);
    Advance(s1, r, Applied, 0);
    var s2 := State(s.db, s.calls[r := RefreshRow(sid, u, h)]);
    assert Step(s1, Move(r, Applied, 0)) == s2;
    Advance(s2, r, Applied, 0);
  }

  lemma LogoutRuns(s: State, q: CallId, sid: SessionId)
    requires q !in s.calls && sid in s.db.rows && s.db.rows[sid].revokedAt.None?
    ensures
      var s' := Step(Step(Step(s, Start(q, KillKeys(sid))), Move(q, Applied, 0)), Move(q, Applied, 0));
      && s'.db.clock == s.db.clock && s'.db.returned == s.db.returned
      && Revoked(s'.db, sid) && !LiveSession(s'.db, sid) && s'.calls == s.calls[q := Idle]
  {
    var s1 := State(s.db, s.calls[q := KillKeys(sid)]);
    Advance(s1, q, Applied, 0);
    var s2 := State(DropKeys(s.db, sid), s.calls[q := KillRow(sid)]);
    assert Step(s1, Move(q, Applied, 0)) == s2;
    Advance(s2, q, Applied, 0);
  }

  /**
   * From every initial state, for every user and fresh session id: after a
   * login, a refresh stopped past its row check and a complete logout, the row
   * is revoked and the key gone, and yet some schedule lets the logged-out
   * token verify again.
   */
  lemma LogoutCanBeUndone(s0: State, u: UserId, sid: SessionId, h: Hash) returns (schedule: seq<Action>)
    requires Initial(s0) && sid !in s0.db.usedIds
    ensures
      var s := Run(s0, schedule);
      Inv(s) && Revoked(s.db, sid) && !LiveSession(s.db, sid) && Reopens(s, sid)
  {
    var mid := Run(s0, LoginSteps(0, u, sid, h));
    schedule := LoginSteps(0, u, sid, h) + LogoutDuringRefresh(1, 2, u, sid, h);
    LoginRuns(s0, 0, u, sid, h);
    RunAppend(s0, LoginSteps(0, u, sid, h), LogoutDuringRefresh(1, 2, u, sid, h));
    LogoutDuringRefreshRuns(mid, 1, 2, u, sid, h);
    RunKeepsInv(s0, schedule);
    var s, held := Run(s0, schedule), Token(sid, u, s0.db.clock);
    assert held in s.db.returned && s.db.clock < held.Exp();
    assert WillReopen(s.db, s.calls[1], sid);
    ReopensIff(s, sid);
  }
}
