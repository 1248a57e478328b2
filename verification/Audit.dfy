/**
 * Transactions on pooled connections, the audit triggers on `users` and
 * `auth_identities`, and the transaction-local `app.actor_id` setting.
 * Transactions interleave statement by statement; row locks keep two open
 * transactions from writing the same row.
 */
module Audit {
  import opened Base
  import Sessions

  type Id = Sessions.Id
  type Secret = Sessions.Secret
  type Role = Sessions.Role
  type Status = Sessions.Status
  type Uuid = nat
  type Conn = nat
  type TxId = nat

  datatype RowKey = UserRow(user: Id) | IdentityRow(user: Id)

  datatype Record =
    | Account(status: Status, role: Role, deleted: bool)
    | Identity(failed: int, locked: Option<Time>, hash: Secret)

  datatype Pair<T> = Pair(was: T, becomes: T)

  /** The JSON of changed columns; a changed password hash is recorded without its values. */
  datatype Changes = Changes(
    status: Option<Pair<Status>>, role: Option<Pair<Role>>,
    failed: Option<Pair<int>>, locked: Option<Pair<Option<Time>>>, hash: bool)

  const NOTHING: Changes := Changes(None, None, None, None, false)

  /** A row of `audit_logs` written by a trigger; `created` is `now()`, the start of the transaction `xmin` that inserted it. */
  datatype Entry = Entry(actor: Option<Uuid>, key: RowKey, changes: Changes, xmin: TxId, created: Time)

  /** `actor` is the value given to `set_config(…, true)`, `work` the row versions written, `created` the values inserted. */
  datatype Txn = Txn(
    id: TxId, actor: Option<string>, started: Time, work: map<RowKey, Record>, created: map<RowKey, Record>,
    entries: seq<Entry>, failed: bool)

  /** `setting` is what `current_setting` reads outside a transaction that set the actor. */
  datatype Connection = Connection(setting: Option<string>, txn: Option<Txn>)

  /** `table`, `base` and `entries`, in the order of the commits, are committed; `begun` and `committed` are the history of transactions. */
  datatype State = State(
    table: map<RowKey, Record>,
    base: map<RowKey, Record>,
    entries: seq<Entry>,
    pool: map<Conn, Connection>,
    begun: map<TxId, Option<string>>,
    committed: set<TxId>,
    next: TxId)

  /** `parse` is the cast of text to UUID; `nullif` tells the trigger bodies of migration 007 from those of 002. */
  datatype Env = Env(parse: string -> Option<Uuid>, nullif: bool)

  datatype Statement =
    | SetStatus(status: Status) | SetRole(role: Role) | SoftDelete
    | IncrementFailed | Lock | ResetFailed | SetHash(hash: Secret)

  // ----- one statement -----

  /** The new version of the row, or nothing if the statement raises an error. */
  function Updated(row: Record, stmt: Statement, now: Time): Option<Record> {
    match (row, stmt)
    case (Account(st, r, del), SetStatus(st')) => Some(if del then row else Account(st', r, del))
    case (Account(st, r, del), SetRole(r')) =>
      if del then Some(row) else if r == Sessions.Admin && r' != Sessions.Admin then None else Some(Account(st, r', del))
    case (Account(st, r, del), SoftDelete) => Some(if del then row else Account(st, r, true))
    case (Identity(n, l, h), IncrementFailed) => if n >= INT4_MAX then None else Some(Identity(n + 1, l, h))
    case (Identity(n, l, h), Lock) => Some(Identity(n, Some(now), h))
    case (Identity(n, l, h), ResetFailed) => Some(Identity(0, None, h))
    case (Identity(n, l, h), SetHash(h')) => Some(Identity(n, l, h'))
    case _ => Some(row)
  }

  function Changed<T(==)>(was: T, becomes: T): Option<Pair<T>> { if was != becomes then Some(Pair(was, becomes)) else None }

  /** The changes the trigger of the row's table collects. */
  function Diff(was: Record, becomes: Record): Changes {
    match (was, becomes)
    case (Account(st, r, _), Account(st', r', _)) => Changes(Changed(st, st'), Changed(r, r'), None, None, false)
    case (Identity(n, l, h), Identity(n', l', h')) => Changes(None, None, Changed(n, n'), Changed(l, l'), h != h')
    case _ => NOTHING
  }

  function Setting(c: Connection): Option<string> {
    if c.txn.Some? && c.txn.value.actor.Some? then c.txn.value.actor else c.setting
  }

  /** `NULLIF(current_setting(…), '')::UUID`, or the bare cast of the older bodies; `None` is a failed cast. */
  function Cast(env: Env, setting: Option<string>): Option<Option<Uuid>> {
    match setting
    case None => Some(None)
    case Some(text) =>
      if env.nullif && text == "" then Some(None)
      else if env.parse(text).Some? then Some(env.parse(text)) else None
  }

  datatype Outcome = Skipped | Raised | Wrote(row: Record, entry: Option<Entry>)

  predicate Running(s: State, c: Conn) { c in s.pool && s.pool[c].txn.Some? }

  predicate Healthy(s: State, c: Conn) { Running(s, c) && !s.pool[c].txn.value.failed }

  /** Another open transaction has written the row: the statement waits. */
  predicate Locked(s: State, c: Conn, k: RowKey) {
    exists d | d in s.pool && d != c :: s.pool[d].txn.Some? && k in s.pool[d].txn.value.work
  }

  predicate Visible(s: State, t: Txn, k: RowKey) { k in t.work || k in s.table }

  function Current(s: State, t: Txn, k: RowKey): Record
    requires Visible(s, t, k)
  {
    if k in t.work then t.work[k] else s.table[k]
  }

  function Judge(env: Env, s: State, c: Conn, k: RowKey, stmt: Statement): Outcome
    requires Running(s, c)
  {
    var t := s.pool[c].txn.value;
    if t.failed || Locked(s, c, k) || !Visible(s, t, k) then Skipped
    else
      var row := Current(s, t, k);
      var row' := Updated(row, stmt, t.started);
      if row'.None? then Raised
      else if Diff(row, row'.value) == NOTHING then Wrote(row'.value, None)
      else
        var actor := Cast(env, Setting(s.pool[c]));
        if actor.None? then Raised else Wrote(row'.value, Some(Entry(actor.value, k, Diff(row, row'.value), t.id, t.started)))
  }

  function After(t: Txn, k: RowKey, o: Outcome): Txn {
    match o
    case Skipped => t
    case Raised => t.(failed := true)
    case Wrote(row, entry) => t.(work := t.work[k := row], entries := if entry.Some? then t.entries + [entry.value] else t.entries)
  }

  // ----- transactions -----

  datatype Step =
    | Connect(conn: Conn)
    | Begin(conn: Conn, actor: Option<string>, now: Time)
    | Exec(conn: Conn, key: RowKey, stmt: Statement)
    | Insert(conn: Conn, key: RowKey, row: Record)
    | Fail(conn: Conn)
    | End(conn: Conn, commit: bool, blank: bool)

  function WithTxn(s: State, c: Conn, t: Txn): State
    requires c in s.pool
  {
    s.(pool := s.pool[c := s.pool[c].(txn := Some(t))])
  }

  predicate Fresh(s: State, t: Txn, c: Conn, k: RowKey) { !Visible(s, t, k) && !Locked(s, c, k) }

  /** What the connection reads for the setting once the transaction is over; `blank`: the reverted setting reads as the empty string. */
  function Reverted(c: Connection, blank: bool): Connection
    requires c.txn.Some?
  {
    Connection(if c.txn.value.actor.None? then c.setting else if blank then Some("") else None, None)
  }

  function Next(env: Env, s: State, step: Step): State {
    match step
    case Connect(c) => if c in s.pool then s else s.(pool := s.pool[c := Connection(None, None)])
    case Begin(c, actor, now) =>
      if c !in s.pool || Running(s, c) then s
      else s.(pool := s.pool[c := s.pool[c].(txn := Some(Txn(s.next, actor, now, map[], map[], [], false)))],
              begun := s.begun[s.next := actor], next := s.next + 1)
    case Exec(c, k, stmt) => if !Running(s, c) then s else WithTxn(s, c, After(s.pool[c].txn.value, k, Judge(env, s, c, k, stmt)))
    case Insert(c, k, row) =>
      if !Healthy(s, c) || !Fresh(s, s.pool[c].txn.value, c, k) then s
      else
        var t := s.pool[c].txn.value;
        WithTxn(s, c, t.(work := t.work[k := row], created := t.created[k := row]))
    case Fail(c) => if !Running(s, c) then s else WithTxn(s, c, s.pool[c].txn.value.(failed := true))
    case End(c, commit, blank) =>
      if !Running(s, c) then s
      else if commit && Healthy(s, c) then Commit(s, c, blank)
      else s.(pool := s.pool[c := Reverted(s.pool[c], blank)])
  }

  function Commit(s: State, c: Conn, blank: bool): State
    requires Running(s, c)
  {
    var t := s.pool[c].txn.value;
    s.(table := s.table + t.work, base := s.base + t.created, entries := s.entries + t.entries,
       committed := s.committed + {t.id}, pool := s.pool[c := Reverted(s.pool[c], blank)])
  }

  function Run(env: Env, s: State, steps: seq<Step>): State {
    if steps == [] then s else Next(env, Run(env, s, steps[..|steps| - 1]), steps[|steps| - 1])
  }

  ghost predicate Initial(s: State) {
    && s.base == s.table && s.entries == [] && s.pool == map[] && s.begun == map[] && s.committed == {}
  }
}
