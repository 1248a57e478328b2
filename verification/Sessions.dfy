/**
 * Sessions, accounts and administration at the granularity of service calls:
 * each call is one step, and the outcome of every store access inside it is an
 * input. Redis holds expiring `session:` and `refresh:` keys, Postgres holds
 * users, session rows and password resets.
 */
module Sessions {
  import opened Base

  type Id = nat
  /** An opaque token, identified with its hash: `HashOpaqueToken` is injective on issued tokens. */
  type Secret = nat

  datatype Role = Plain | Moderator | Admin
  datatype Status = Active | Offline | Disabled | Banned
  datatype User = User(role: Role, status: Status, deleted: bool, password: Secret)
  datatype Row = Row(user: Id, hash: Secret, created: Time, expires: Time, revoked: bool)
  datatype RefreshKey = RefreshKey(hash: Secret, exp: Time)
  datatype Reset = Reset(user: Id, hash: Secret, expires: Time, used: bool)
  /** A signed access JWT. `role` is the string put into the claims. */
  datatype Claims = Claims(sid: Id, user: Id, role: string, iat: Time, exp: Time)

  /** `next` is the supply of fresh random ids and secrets: everything issued so far is below it. */
  datatype State = State(
    clock: Time,
    users: map<Id, User>,
    rows: map<Id, Row>,
    sessionKeys: map<Id, Time>,
    refreshKeys: map<Id, RefreshKey>,
    resets: map<Id, Reset>,
    signed: set<Claims>,
    next: nat)

  datatype Reply =
    | Issued(claims: Claims, refresh: Secret)
    | Done
    | InvalidPasswordFormat | InvalidCredentials | NewPasswordMatchesCurrent
    | SessionExpired | Unauthorized | AccountNotUsable | TokenGenerationFailed | InternalError
    | InvalidOrExpiredToken | UserNotFound | CannotTargetSelf | AdminProtected

  // ----- outcomes of the store accesses inside one call -----

  /** Issuing tokens: SET session key, sign, SET refresh key, write the row, and on a failed row delete the keys again. */
  datatype IssueFaults = IssueFaults(setSession: Write, sign: bool, setRefresh: Write, row: Write, undo: Write) {
    predicate Signed() { setSession.Acked() && sign }
    predicate Minted() { Signed() && setRefresh.Acked() }
    predicate Returned() { Minted() && row.Acked() }
  }

  datatype RefreshFaults = RefreshFaults(
    getKey: bool, getRow: bool, getUser: bool, issue: IssueFaults, delKeys: Write, revoke: Write)

  /** `loaded`: the lookup of an administrator's target answered; `lost`: the sessions whose Redis deletion had no effect. */
  datatype BulkFaults = BulkFaults(loaded: bool, list: bool, tx: Tx, lost: set<Id>)

  /**
   * What decides a password call besides the stores' contents: the new password
   * is acceptable and confirmed, the token lookup and the account lookup
   * answered, the stored hash could be read, the new one could be made.
   */
  datatype PasswordChecks = PasswordChecks(format: bool, lookup: bool, account: bool, readable: bool, hashing: bool)

  datatype StatusAction = Ban | Unban | Disable | Enable {
    function Target(): Status { match this case Ban => Banned case Disable => Disabled case _ => Active }
    predicate Revokes() { Ban? || Disable? }
  }

  // ----- queries -----

  predicate Usable(u: User) { !u.deleted && u.status != Banned && u.status != Disabled }

  predicate LiveSession(s: State, sid: Id) { sid in s.sessionKeys && s.clock < s.sessionKeys[sid] }

  predicate LiveRefresh(s: State, sid: Id) { sid in s.refreshKeys && s.clock < s.refreshKeys[sid].exp }

  /** `ListActiveSessionIDs`. */
  function ActiveIds(s: State, u: Id): set<Id> {
    set sid | sid in s.rows && s.rows[sid].user == u && !s.rows[sid].revoked
  }

  function RoleName(r: Role): string {
    match r case Plain => "user" case Moderator => "moderator" case Admin => "admin"
  }

  /** Lookup in the `roleRank` map: a string that is no key of it yields 0. */
  function RoleRank(name: string): int {
    if name == "moderator" then 1 else if name == "admin" then 2 else 0
  }

  predicate RequireRole(min: Role, name: string) { RoleRank(name) >= RoleRank(RoleName(min)) }

  /** The access token is accepted by `VerifyAndParseJWT`. */
  predicate Accepted(s: State, c: Claims) { c in s.signed && s.clock < c.exp && LiveSession(s, c.sid) }

  // ----- store updates -----

  function PutIf<T>(b: bool, m: map<Id, T>, k: Id, v: T): map<Id, T> { if b then m[k := v] else m }

  function DropIf<T>(b: bool, m: map<Id, T>, ks: set<Id>): map<Id, T> { if b then m - ks else m }

  function RevokeIf(b: bool, rows: map<Id, Row>, ids: set<Id>): map<Id, Row> {
    if b then map sid | sid in rows :: if sid in ids then rows[sid].(revoked := true) else rows[sid] else rows
  }

  /** `UPDATE users SET … WHERE id = u AND deleted_at IS NULL`. */
  function UpdateLive(users: map<Id, User>, u: Id, v: User): map<Id, User> {
    PutIf(u in users && !users[u].deleted, users, u, v)
  }

  // ----- sign-up, login, refresh, logout -----

  function ClaimsFor(s: State, sid: Id, user: Id): Claims
    requires user in s.users
  {
    Claims(sid, user, RoleName(s.users[user].role), s.clock, s.clock + ACCESS_TTL)
  }

  /** What issuing tokens for session `sid` with refresh secret `h` and row `row` leaves behind; `undo`: the keys are deleted again. */
  function Grant(s: State, sid: Id, h: Secret, c: Claims, row: Row, f: IssueFaults, undo: bool): State {
    s.(sessionKeys := DropIf(undo, PutIf(f.setSession.Took(), s.sessionKeys, sid, c.exp), {sid}),
       signed := if f.Signed() then s.signed + {c} else s.signed,
       refreshKeys := DropIf(undo,
         PutIf(f.Signed() && f.setRefresh.Took(), s.refreshKeys, sid, RefreshKey(h, s.clock + REFRESH_TTL)), {sid}),
       rows := PutIf(f.Minted() && f.row.Took(), s.rows, sid, row),
       next := h + 1)
  }

  /** `issueLoginSession`, reached by password, MFA, passkey and SSO logins alike. */
  function Issue(s: State, user: Id, f: IssueFaults): State
    requires user in s.users
  {
    Grant(s, s.next, s.next + 1, ClaimsFor(s, s.next, user),
          Row(user, s.next + 1, s.clock, s.clock + REFRESH_TTL, false), f,
          f.Minted() && !f.row.Acked() && f.undo.Took())
  }

  function IssueReply(s: State, user: Id, f: IssueFaults): Reply
    requires user in s.users
  {
    if f.Returned() then Issued(ClaimsFor(s, s.next, user), s.next + 1) else TokenGenerationFailed
  }

  /** The account re-check of every login path. */
  function LoginRefusal(s: State, user: Id): Option<Reply> {
    if user !in s.users then Some(Unauthorized)
    else if !Usable(s.users[user]) then Some(AccountNotUsable)
    else None
  }

  function NewUser(s: State, password: Secret): State {
    s.(users := s.users[s.next := User(Plain, Active, false, password)], next := s.next + 1)
  }

  /** `revokeCompromisedSession` and the body of `Logout`. */
  function Kill(s: State, sid: Id, delKeys: Write, revoke: Write): State {
    s.(sessionKeys := DropIf(delKeys.Took(), s.sessionKeys, {sid}),
       refreshKeys := DropIf(delKeys.Took(), s.refreshKeys, {sid}),
       rows := RevokeIf(revoke.Took(), s.rows, {sid}))
  }

  /** How `RefreshToken` judges a supplied token: refuse, revoke the session and refuse, or rotate. */
  datatype Verdict = Refuse(reply: Reply) | Revoke(reply: Reply) | Rotate

  function Judge(s: State, sid: Id, user: Id, tok: Secret, f: RefreshFaults): Verdict {
    if !f.getKey then Refuse(InternalError)
    else if !LiveRefresh(s, sid) then Refuse(SessionExpired)
    else if s.refreshKeys[sid].hash != tok then Revoke(SessionExpired)
    else if !f.getRow then Refuse(InternalError)
    else if sid !in s.rows then Refuse(SessionExpired)
    else if s.rows[sid].revoked || s.rows[sid].user != user || s.rows[sid].hash != tok then Revoke(SessionExpired)
    else if !f.getUser then Refuse(InternalError)
    else if user !in s.users then Revoke(Unauthorized)
    else if !Usable(s.users[user]) then Revoke(AccountNotUsable)
    else Rotate
  }

  /** `RotateSessionTokens` followed by the guarded row update. */
  function RotateTokens(s: State, sid: Id, f: IssueFaults): State
    requires sid in s.rows && s.rows[sid].user in s.users
  {
    Grant(s, sid, s.next, ClaimsFor(s, sid, s.rows[sid].user),
          s.rows[sid].(hash := s.next, expires := s.clock + REFRESH_TTL), f, false)
  }

  function Refresh(s: State, sid: Id, user: Id, tok: Secret, f: RefreshFaults): State {
    match Judge(s, sid, user, tok, f)
    case Refuse(_) => s
    case Revoke(_) => Kill(s, sid, f.delKeys, f.revoke)
    case Rotate => RotateTokens(s, sid, f.issue)
  }

  function RefreshReply(s: State, sid: Id, user: Id, tok: Secret, f: RefreshFaults): Reply {
    match Judge(s, sid, user, tok, f)
    case Refuse(r) => r
    case Revoke(r) => r
    case Rotate => if f.issue.Returned() then Issued(ClaimsFor(s, sid, user), s.next) else TokenGenerationFailed
  }

  // ----- bulk revocation -----

  /**
   * The shape shared by ban, disable, delete, force-logout, reset and change:
   * list the active sessions, commit the new tables with the active rows of `u`
   * (all but `keep`) revoked, then delete the listed Redis keys.
   */
  function Bulk(s: State, users: map<Id, User>, resets: map<Id, Reset>, u: Id, keep: set<Id>, f: BulkFaults): State {
    var ids := ActiveIds(s, u) - keep;
    s.(users := if f.tx.Took() then users else s.users,
       resets := if f.tx.Took() then resets else s.resets,
       rows := RevokeIf(f.tx.Took(), s.rows, ids),
       sessionKeys := DropIf(f.tx.Committed? && f.list, s.sessionKeys, ids - f.lost),
       refreshKeys := DropIf(f.tx.Committed? && f.list, s.refreshKeys, ids - f.lost))
  }

  function TxReply(tx: Tx): Reply { if tx.Committed? then Done else InternalError }

  /** `loadAdminTarget`: the refusal every admin mutation shares, if any; `loaded`: its lookup answered. */
  function Refusal(s: State, actor: Id, target: Id, loaded: bool): Option<Reply> {
    if actor == target then Some(CannotTargetSelf)
    else if !loaded then Some(InternalError)
    else if target !in s.users then Some(UserNotFound)
    else if s.users[target].role == Admin then Some(AdminProtected)
    else None
  }

  function SetStatus(s: State, target: Id, a: StatusAction, f: BulkFaults): State
    requires target in s.users
  {
    var users := UpdateLive(s.users, target, s.users[target].(status := a.Target()));
    if a.Revokes() then Bulk(s, users, s.resets, target, {}, f)
    else s.(users := if f.tx.Took() then users else s.users)
  }

  function DeleteUser(s: State, target: Id, f: BulkFaults): State
    requires target in s.users
  {
    Bulk(s, UpdateLive(s.users, target, s.users[target].(deleted := true)), s.resets, target, {}, f)
  }

  function ChangeRole(s: State, target: Id, role: Role, tx: Tx): State
    requires target in s.users
  {
    s.(users := if tx.Took() then UpdateLive(s.users, target, s.users[target].(role := role)) else s.users)
  }

  /** The row insert of `RequestPasswordReset` and `AdminResetUserPassword`. */
  function RequestReset(s: State, user: Id, ttl: nat, w: Write): State {
    s.(resets := PutIf(w.Took(), s.resets, s.next, Reset(user, s.next + 1, s.clock + ttl, false)), next := s.next + 2)
  }

  /** `GetActivePasswordReset`: unused, unexpired, with this token hash. */
  predicate ActiveReset(s: State, id: Id, tok: Secret) {
    id in s.resets && s.resets[id].hash == tok && !s.resets[id].used && s.clock < s.resets[id].expires
  }

  function ResetRefusal(s: State, id: Id, tok: Secret, k: PasswordChecks): Option<Reply> {
    if !k.format then Some(InvalidPasswordFormat)
    else if !k.lookup then Some(InternalError)
    else if !ActiveReset(s, id, tok) then Some(InvalidOrExpiredToken)
    else if !k.account || s.resets[id].user !in s.users then Some(InternalError)
    else if !Usable(s.users[s.resets[id].user]) then Some(AccountNotUsable)
    else if !k.hashing then Some(InternalError)
    else None
  }

  function WithPassword(s: State, u: Id, password: Secret): map<Id, User>
    requires u in s.users
  {
    s.users[u := s.users[u].(password := password)]
  }

  function ResetPassword(s: State, id: Id, password: Secret, f: BulkFaults): State
    requires id in s.resets && s.resets[id].user in s.users
  {
    var u := s.resets[id].user;
    Bulk(s, WithPassword(s, u, password), s.resets[id := s.resets[id].(used := true)], u, {}, f)
  }

  /** The caller's access token has been verified; `given` is the current password as typed. A stored hash verifies exactly its own password. */
  function ChangeRefusal(s: State, user: Id, given: Secret, password: Secret, k: PasswordChecks): Option<Reply> {
    if !k.format then Some(InvalidPasswordFormat)
    else if !k.account then Some(InternalError)
    else if user !in s.users then Some(Unauthorized)
    else if !Usable(s.users[user]) then Some(AccountNotUsable)
    else if !k.readable then Some(InternalError)
    else if s.users[user].password != given then Some(InvalidCredentials)
    else if s.users[user].password == password then Some(NewPasswordMatchesCurrent)
    else if !k.hashing then Some(InternalError)
    else None
  }

  function ChangePassword(s: State, user: Id, current: Id, password: Secret, f: BulkFaults): State
    requires user in s.users
  {
    Bulk(s, WithPassword(s, user, password), s.resets, user, {current}, f)
  }

  // ----- cron -----

  function RevokeExpired(s: State): State {
    s.(rows := RevokeIf(true, s.rows, set sid | sid in s.rows && s.rows[sid].expires < s.clock))
  }

  function RevokeOld(s: State): State {
    s.(rows := RevokeIf(true, s.rows, set sid | sid in s.rows && s.rows[sid].created < s.clock - SESSION_LIFE))
  }

  // ----- runs -----

  datatype Call =
    | CTick(seconds: nat)
    | CSignUp(password: Secret, tx: Tx, issue: IssueFaults)
    | CLogin(user: Id, issue: IssueFaults)
    | CRefresh(sid: Id, user: Id, tok: Secret, refresh: RefreshFaults)
    | CLogout(sid: Id, delKeys: Write, revoke: Write)
    | CSetStatus(actor: Id, target: Id, action: StatusAction, bulk: BulkFaults)
    | CForceLogout(actor: Id, target: Id, bulk: BulkFaults)
    | CDeleteUser(actor: Id, target: Id, bulk: BulkFaults)
    | CChangeRole(actor: Id, target: Id, role: Role, loaded: bool, tx: Tx)
    | CRequestReset(user: Id, ttl: nat, insert: Write)
    | CResetPassword(reset: Id, tok: Secret, password: Secret, checks: PasswordChecks, bulk: BulkFaults)
    | CChangePassword(user: Id, sid: Id, given: Secret, password: Secret, checks: PasswordChecks, bulk: BulkFaults)
    | CRevokeExpired
    | CRevokeOld

  function Apply(s: State, c: Call): State {
    match c
    case CTick(d) => s.(clock := s.clock + d)
    case CSignUp(p, tx, f) =>
      if !tx.Took() then s else if !tx.Committed? then NewUser(s, p) else Issue(NewUser(s, p), s.next, f)
    case CLogin(u, f) => if LoginRefusal(s, u).Some? then s else Issue(s, u, f)
    case CRefresh(sid, u, tok, f) => Refresh(s, sid, u, tok, f)
    case CLogout(sid, d, r) => Kill(s, sid, d, r)
    case CSetStatus(a, t, act, f) => if Refusal(s, a, t, f.loaded).Some? then s else SetStatus(s, t, act, f)
    case CForceLogout(a, t, f) => if Refusal(s, a, t, f.loaded).Some? then s else Bulk(s, s.users, s.resets, t, {}, f)
    case CDeleteUser(a, t, f) => if Refusal(s, a, t, f.loaded).Some? then s else DeleteUser(s, t, f)
    case CChangeRole(a, t, r, loaded, tx) => if Refusal(s, a, t, loaded).Some? || r == Admin then s else ChangeRole(s, t, r, tx)
    case CRequestReset(u, ttl, w) => RequestReset(s, u, ttl, w)
    case CResetPassword(id, tok, p, k, f) => if ResetRefusal(s, id, tok, k).Some? then s else ResetPassword(s, id, p, f)
    case CChangePassword(u, sid, given, p, k, f) => if ChangeRefusal(s, u, given, p, k).Some? then s else ChangePassword(s, u, sid, p, f)
    case CRevokeExpired => RevokeExpired(s)
    case CRevokeOld => RevokeOld(s)
  }

  /** The state before the k-th call of a run. */
  function At(s: State, calls: seq<Call>, k: nat): State
    requires k <= |calls|
  {
    if k == 0 then s else Apply(At(s, calls, k - 1), calls[k - 1])
  }

  ghost predicate Initial(s: State) {
    && s.rows == map[] && s.sessionKeys == map[] && s.refreshKeys == map[] && s.resets == map[] && s.signed == {}
    && forall u | u in s.users :: u < s.next
  }
}
