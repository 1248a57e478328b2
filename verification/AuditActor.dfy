/** Who an audit entry is attributed to, on connections that many transactions share. */
module AuditActor {
  import opened Base
  import opened Audit

  /** The attribution a transaction's own `WithActor` id calls for: no id or an empty one is NULL. */
  ghost predicate Attributed(env: Env, given: Option<string>, actor: Option<Uuid>) {
    if given.None? || given.value == "" then actor.None? else actor.Some? && actor == env.parse(given.value)
  }

  ghost predicate OpenOk(env: Env, s: State, t: Txn) {
    && t.id in s.begun && s.begun[t.id] == t.actor && t.id !in s.committed
    && forall e | e in t.entries :: e.xmin == t.id && Attributed(env, t.actor, e.actor)
  }

  ghost predicate Open(s: State, t: TxId) { exists c | c in s.pool :: s.pool[c].txn.Some? && s.pool[c].txn.value.id == t }

  ghost predicate EntriesOk(env: Env, s: State) {
    forall e | e in s.entries :: e.xmin in s.begun && e.xmin in s.committed && Attributed(env, s.begun[e.xmin], e.actor)
  }

  ghost predicate IdsOk(s: State) {
    && (forall t | t in s.begun :: t < s.next)
    && (forall t | t in s.committed :: t in s.begun)
    && (forall c, d | c in s.pool && d in s.pool && s.pool[c].txn.Some? && s.pool[d].txn.Some?
          && s.pool[c].txn.value.id == s.pool[d].txn.value.id :: c == d)
  }

  ghost predicate Inv(env: Env, s: State) {
    && env.parse("") == None
    && IdsOk(s)
    && EntriesOk(env, s)
    && (forall c | c in s.pool :: s.pool[c].setting == None || s.pool[c].setting == Some(""))
    && (forall c | c in s.pool && s.pool[c].txn.Some? :: OpenOk(env, s, s.pool[c].txn.value))
  }

  // ----- steps -----

  lemma CastAttributes(env: Env, c: Connection)
    requires env.parse("") == None && c.txn.Some? && (c.setting == None || c.setting == Some(""))
    ensures Cast(env, Setting(c)).Some? ==> Attributed(env, c.txn.value.actor, Cast(env, Setting(c)).value)
  {
  }

  lemma JudgeKeepsOpen(env: Env, s: State, c: Conn, k: RowKey, stmt: Statement)
    requires Inv(env, s) && Running(s, c)
    ensures OpenOk(env, s, After(s.pool[c].txn.value, k, Judge(env, s, c, k, stmt)))
  {
    assert OpenOk(env, s, s.pool[c].txn.value);
    CastAttributes(env, s.pool[c]);
  }

  lemma WithTxnKeepsInv(env: Env, s: State, c: Conn, t': Txn)
    requires Inv(env, s) && Running(s, c) && t'.id == s.pool[c].txn.value.id && OpenOk(env, s, t')
    ensures Inv(env, WithTxn(s, c, t'))
  {
    var s' := WithTxn(s, c, t');
    forall d | d in s'.pool && s'.pool[d].txn.Some? ensures OpenOk(env, s', s'.pool[d].txn.value) {
      if d != c { assert OpenOk(env, s, s.pool[d].txn.value); }
    }
  }

  lemma BeginKeepsInv(env: Env, s: State, c: Conn, actor: Option<string>, now: Time)
    requires Inv(env, s)
    ensures Inv(env, Next(env, s, Begin(c, actor, now)))
  {
    var s' := Next(env, s, Begin(c, actor, now));
    assert s.next !in s.begun;
    assert forall e | e in s.entries :: e.xmin in s.begun;
    forall d | d in s'.pool && s'.pool[d].txn.Some? ensures OpenOk(env, s', s'.pool[d].txn.value) {
      if s.pool[d].txn.Some? { assert OpenOk(env, s, s.pool[d].txn.value); }
    }
  }

  lemma EndKeepsInv(env: Env, s: State, c: Conn, commit: bool, blank: bool)
    requires Inv(env, s)
    ensures Inv(env, Next(env, s, End(c, commit, blank)))
  {
    var s' := Next(env, s, End(c, commit, blank));
    if Running(s, c) {
      assert OpenOk(env, s, s.pool[c].txn.value);
      forall d | d in s'.pool && s'.pool[d].txn.Some? ensures OpenOk(env, s', s'.pool[d].txn.value) {
        assert OpenOk(env, s, s.pool[d].txn.value) && d != c;
      }
    }
  }

  lemma StepKeepsInv(env: Env, s: State, step: Step)
    requires Inv(env, s)
    ensures Inv(env, Next(env, s, step))
  {
    match step
    case Connect(_) =>
    case Begin(c, actor, now) => BeginKeepsInv(env, s, c, actor, now);
    case Exec(c, k, stmt) =>
      if Running(s, c) {
        JudgeKeepsOpen(env, s, c, k, stmt);
        WithTxnKeepsInv(env, s, c, After(s.pool[c].txn.value, k, Judge(env, s, c, k, stmt)));
      }
    case Insert(c, k, row) =>
      if Running(s, c) {
        var t := s.pool[c].txn.value;
        WithTxnKeepsInv(env, s, c, t.(work := t.work[k := row], created := t.created[k := row]));
      }
    case Fail(c) => if Running(s, c) { WithTxnKeepsInv(env, s, c, s.pool[c].txn.value.(failed := true)); }
    case End(c, commit, blank) => EndKeepsInv(env, s, c, commit, blank);
  }

  lemma {:induction false} RunKeepsInv(env: Env, s: State, steps: seq<Step>)
    requires Inv(env, s)
    ensures Inv(env, Run(env, s, steps))
  {
    if steps != [] {
      RunKeepsInv(env, s, steps[..|steps| - 1]);
      StepKeepsInv(env, Run(env, s, steps[..|steps| - 1]), steps[|steps| - 1]);
    }
  }

  // ----- results -----

  /**
   * Whatever the connections were used for before: every committed entry was
   * written by a committed transaction and carries the id given to that
   * transaction's own `WithActor`, or NULL if it was given none.
   */
  lemma ActorNeverLeaks(env: Env, s: State, steps: seq<Step>)
    requires Initial(s) && env.parse("") == None
    ensures
      var s' := Run(env, s, steps);
      forall e | e in s'.entries :: e.xmin in s'.committed && e.xmin in s'.begun && Attributed(env, s'.begun[e.xmin], e.actor)
  {
    RunKeepsInv(env, s, steps);
  }

  /**
   * When the cast inside a trigger fails. With the bodies of migration 007: only
   * for an id of the transaction's own that is not a UUID. With those of 002:
   * also in every transaction without an id on a connection whose setting has
   * been reverted to the empty string.
   */
  lemma CastFailsIff(env: Env, s: State, steps: seq<Step>, c: Conn)
    requires Initial(s) && env.parse("") == None && Running(Run(env, s, steps), c)
    ensures
      var conn := Run(env, s, steps).pool[c];
      var given := conn.txn.value.actor;
      Cast(env, Setting(conn)).None? <==>
        || (given.Some? && given.value != "" && env.parse(given.value).None?)
        || (!env.nullif && (given == Some("") || (given.None? && conn.setting == Some(""))))
  {
    RunKeepsInv(env, s, steps);
  }

  lemma BeginPlain(env: Env, s: State, c: Conn, now: Time)
    requires c in s.pool && s.pool[c].txn.None?
    ensures
      var s' := Next(env, s, Begin(c, None, now));
      && s'.table == s.table
      && s'.pool == s.pool[c := Connection(s.pool[c].setting, Some(Txn(s.next, None, now, map[], map[], [], false)))]
  {
  }

  lemma FirstChange(env: Env, s: State, c: Conn, k: RowKey, stmt: Statement)
    requires Running(s, c) && env.parse("") == None && s.pool[c].setting == Some("")
    requires var t := s.pool[c].txn.value; t.actor == None && t.work == map[] && !t.failed
    requires k in s.table && !Locked(s, c, k)
    requires var row' := Updated(s.table[k], stmt, s.pool[c].txn.value.started); row'.Some? && Diff(s.table[k], row'.value) != NOTHING
    ensures Judge(env, s, c, k, stmt).Raised? <==> !env.nullif
    ensures Judge(env, s, c, k, stmt).Raised? || Judge(env, s, c, k, stmt).Wrote?
  {
  }

  /**
   * An administrator's transaction ends and leaves the empty string behind; on
   * the same connection, any transaction without an actor then makes any audited
   * change. With the older trigger bodies it fails, with the current ones it never does.
   */
  lemma ReusedConnection(env: Env, s: State, c: Conn, commit: bool, now: Time, k: RowKey, stmt: Statement)
    requires Running(s, c) && s.pool[c].txn.value.actor.Some? && env.parse("") == None
    requires
      var s1 := Next(env, s, End(c, commit, true));
      && k in s1.table && !Locked(s1, c, k)
      && var row' := Updated(s1.table[k], stmt, now); row'.Some? && Diff(s1.table[k], row'.value) != NOTHING
    ensures
      var s3 := Next(env, Next(env, Next(env, s, End(c, commit, true)), Begin(c, None, now)), Exec(c, k, stmt));
      Running(s3, c) && (s3.pool[c].txn.value.failed <==> !env.nullif)
  {
    var s1 := Next(env, s, End(c, commit, true));
    assert c in s1.pool && s1.pool[c] == Connection(Some(""), None);
    BeginPlain(env, s1, c, now);
    var s2 := Next(env, s1, Begin(c, None, now));
    assert !Locked(s2, c, k);
    FirstChange(env, s2, c, k, stmt);
  }

  // ----- rolled-back transactions -----

  ghost predicate RolledBack(s: State, t: TxId) { t in s.begun && t !in s.committed && !Open(s, t) }

  /** The ids of open transactions after a step: open before, or the next of the supply. */
  lemma StepKeepsIds(env: Env, s: State, step: Step)
    ensures
      var s' := Next(env, s, step);
      && (forall c | c in s'.pool && s'.pool[c].txn.Some? :: s'.pool[c].txn.value.id == s.next || Open(s, s'.pool[c].txn.value.id))
      && (forall t | t in s'.committed :: t in s.committed || Open(s, t))
      && (forall t | t in s.begun :: t in s'.begun)
  {
  }

  lemma StepKeepsRolledBack(env: Env, s: State, step: Step, t: TxId)
    requires Inv(env, s) && RolledBack(s, t)
    ensures RolledBack(Next(env, s, step), t)
  {
    var s' := Next(env, s, step);
    assert t < s.next;
    StepKeepsIds(env, s, step);
  }

  /** A transaction that ended without committing never has an entry in the log. */
  lemma {:induction false} RolledBackLeavesNothing(env: Env, s: State, steps: seq<Step>, t: TxId)
    requires Inv(env, s) && RolledBack(s, t)
    ensures
      var s' := Run(env, s, steps);
      RolledBack(s', t) && forall e | e in s'.entries :: e.xmin != t
  {
    RunKeepsInv(env, s, steps);
    if steps != [] {
      RolledBackLeavesNothing(env, s, steps[..|steps| - 1], t);
      RunKeepsInv(env, s, steps[..|steps| - 1]);
      StepKeepsRolledBack(env, Run(env, s, steps[..|steps| - 1]), steps[|steps| - 1], t);
    }
  }
}
