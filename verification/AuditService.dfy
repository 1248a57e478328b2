/** The trigger bodies and the transaction wrapper as they run, proved against the steps of `Audit`. */
module AuditService {
  import opened Base
  import opened Audit

  /** What a transaction's function does: an update, or a statement that fails for a reason of its own. */
  datatype Action = Do(key: RowKey, stmt: Statement) | Broken

  /** An update that finds its row locked waits until its deadline, and so fails. */
  function StepOf(s: State, c: Conn, a: Action): Step {
    match a
    case Do(k, stmt) => if Locked(s, c, k) then Fail(c) else Exec(c, k, stmt)
    case Broken => Fail(c)
  }

  function Body(env: Env, s: State, c: Conn, actions: seq<Action>): State {
    if actions == [] then s
    else
      var n := |actions| - 1;
      var s1 := Body(env, s, c, actions[..n]);
      Next(env, s1, StepOf(s1, c, actions[n]))
  }

  function Transaction(env: Env, s: State, c: Conn, actor: Option<string>, now: Time, actions: seq<Action>, commit: Write, blank: bool): State {
    Next(env, Body(env, Next(env, s, Begin(c, actor, now)), c, actions), End(c, commit.Took(), blank))
  }

  class Database {
    var table: map<RowKey, Record>
    ghost var base: map<RowKey, Record>
    var entries: seq<Entry>
    var pool: map<Conn, Connection>
    ghost var begun: map<TxId, Option<string>>
    ghost var committed: set<TxId>
    var next: TxId

    constructor (rows: map<RowKey, Record>)
      ensures Initial(View()) && View().table == rows
    {
      table, base, entries, pool, begun, committed, next := rows, rows, [], map[], map[], {}, 0;
    }

    ghost function View(): State
      reads this
    {
      State(table, base, entries, pool, begun, committed, next)
    }

    /** `log_user_update` and `log_auth_identity_update`: the object of changed columns is built up one column at a time. */
    method CollectChanges(was: Record, becomes: Record) returns (changed: Changes)
      ensures changed == Diff(was, becomes)
    {
      changed := NOTHING;
      if was.Account? && becomes.Account? {
        if becomes.status != was.status { changed := changed.(status := Some(Pair(was.status, becomes.status))); }
        if becomes.role != was.role { changed := changed.(role := Some(Pair(was.role, becomes.role))); }
      } else if was.Identity? && becomes.Identity? {
        if becomes.failed != was.failed { changed := changed.(failed := Some(Pair(was.failed, becomes.failed))); }
        if becomes.locked != was.locked { changed := changed.(locked := Some(Pair(was.locked, becomes.locked))); }
        if becomes.hash != was.hash { changed := changed.(hash := true); }
      }
    }

    /** One update with its trigger, on a connection in a transaction and a row nobody else has locked. */
    method Execute(env: Env, c: Conn, k: RowKey, stmt: Statement) returns (ok: bool)
      requires Healthy(View(), c) && !Locked(View(), c, k)
      modifies this`pool
      ensures View() == Next(env, old(View()), Exec(c, k, stmt))
      ensures ok == Healthy(View(), c)
    {
      var t := pool[c].txn.value;
      if k !in t.work && k !in table {
        assert pool == pool[c := pool[c].(txn := Some(t))];
        return true;
      }
      var row := if k in t.work then t.work[k] else table[k];
      var row' := Updated(row, stmt, t.started);
      if row'.None? {
        pool := pool[c := pool[c].(txn := Some(t.(failed := true)))];
        return false;
      }
      var changed := CollectChanges(row, row'.value);
      var inserted := t.entries;
      if changed != NOTHING {
        var actor := Cast(env, Setting(pool[c]));
        if actor.None? {
          pool := pool[c := pool[c].(txn := Some(t.(failed := true)))];
          return false;
        }
        inserted := inserted + [Entry(actor.value, k, changed, t.id, t.started)];
      }
      pool := pool[c := pool[c].(txn := Some(t.(work := t.work[k := row'.value], entries := inserted)))];
      return true;
    }

    /** The actions in order up to the first that fails. */
    method RunBody(env: Env, c: Conn, actions: seq<Action>, locked: set<RowKey>) returns (ok: bool)
      requires Healthy(View(), c) && forall k :: k in locked <==> Locked(View(), c, k)
      modifies this`pool
      ensures View() == Body(env, old(View()), c, actions)
      ensures Running(View(), c) && ok == Healthy(View(), c)
    {
      ghost var s := View();
      for i := 0 to |actions|
        invariant View() == Body(env, s, c, actions[..i])
        invariant Healthy(View(), c) && forall k :: k in locked <==> Locked(View(), c, k)
      {
        ghost var s1 := View();
        assert actions[..i + 1][..i] == actions[..i];
        if actions[i].Broken? || actions[i].key in locked {
          pool := pool[c := pool[c].(txn := Some(pool[c].txn.value.(failed := true)))];
          BrokenOff(env, s, c, actions, i + 1);
          return false;
        }
        ok := Execute(env, c, actions[i].key, actions[i].stmt);
        SameLocks(s1, View(), c);
        if !ok {
          BrokenOff(env, s, c, actions, i + 1);
          return false;
        }
      }
      assert actions[..|actions|] == actions;
      return true;
    }

    /** `WithTx`, or `WithActor` when an actor is given, on an idle connection of the pool; `locked` are the rows other transactions hold. */
    method WithTx(env: Env, c: Conn, actor: Option<string>, now: Time, actions: seq<Action>, commit: Write, blank: bool, locked: set<RowKey>)
      returns (ok: bool)
      requires c in pool && pool[c].txn.None? && forall k :: k in locked <==> Locked(View(), c, k)
      modifies this
      ensures View() == Transaction(env, old(View()), c, actor, now, actions, commit, blank)
      ensures ok <==> commit.Acked() && Healthy(Body(env, Next(env, old(View()), Begin(c, actor, now)), c, actions), c)
      ensures ok ==> old(next) in committed
      ensures old(next) !in committed ==> table == old(table) && entries == old(entries)
    {
      ghost var s0 := View();
      BeginTx(env, c, actor, now);
      ghost var s1 := View();
      SameLocks(s0, s1, c);
      ok := RunBody(env, c, actions, locked);
      BodyKeepsId(env, s1, c, actions);
      EndTx(env, c, ok && commit.Took(), blank);
      ok := ok && commit.Acked();
    }

    method BeginTx(env: Env, c: Conn, actor: Option<string>, now: Time)
      requires c in pool && pool[c].txn.None?
      modifies this
      ensures View() == Next(env, old(View()), Begin(c, actor, now))
      ensures Healthy(View(), c) && pool[c].txn.value.id == old(next)
      ensures forall d :: (d in pool <==> d in old(pool)) && (d in pool && d != c ==> pool[d] == old(pool)[d])
    {
      pool := pool[c := pool[c].(txn := Some(Txn(next, actor, now, map[], map[], [], false)))];
      begun := begun[next := actor];
      next := next + 1;
    }

    method EndTx(env: Env, c: Conn, commit: bool, blank: bool)
      requires Running(View(), c) && (commit ==> Healthy(View(), c))
      modifies this
      ensures View() == Next(env, old(View()), End(c, commit, blank))
      ensures commit ==> old(pool)[c].txn.value.id in committed
      ensures !commit ==> table == old(table) && entries == old(entries)
    {
      var t := pool[c].txn.value;
      if commit {
        table, base, entries := table + t.work, base + t.created, entries + t.entries;
        committed := committed + {t.id};
      }
      pool := pool[c := Connection(if t.actor.None? then pool[c].setting else if blank then Some("") else None, None)];
    }
  }

  // ----- what the methods rest on -----

  lemma SameLocks(s: State, s': State, c: Conn)
    requires forall d | d != c :: (d in s'.pool <==> d in s.pool) && (d in s.pool ==> s'.pool[d] == s.pool[d])
    ensures forall k :: Locked(s', c, k) <==> Locked(s, c, k)
  {
  }

  /** Nothing more happens in a transaction that has failed. */
  lemma FailedStays(env: Env, s: State, c: Conn, a: Action)
    requires Running(s, c) && s.pool[c].txn.value.failed
    ensures Next(env, s, StepOf(s, c, a)) == s
  {
    assert s.pool[c := s.pool[c].(txn := Some(s.pool[c].txn.value))] == s.pool;
  }

  lemma {:induction false} BrokenOff(env: Env, s: State, c: Conn, actions: seq<Action>, i: nat)
    requires i <= |actions| && Running(Body(env, s, c, actions[..i]), c) && Body(env, s, c, actions[..i]).pool[c].txn.value.failed
    ensures Body(env, s, c, actions) == Body(env, s, c, actions[..i])
    decreases |actions|
  {
    if i == |actions| {
      assert actions[..i] == actions;
    } else {
      var n := |actions| - 1;
      assert actions[..n][..i] == actions[..i];
      BrokenOff(env, s, c, actions[..n], i);
      FailedStays(env, Body(env, s, c, actions[..n]), c, actions[n]);
    }
  }

  lemma {:induction false} BodyKeepsId(env: Env, s: State, c: Conn, actions: seq<Action>)
    requires Running(s, c)
    ensures
      var s' := Body(env, s, c, actions);
      Running(s', c) && s'.pool[c].txn.value.id == s.pool[c].txn.value.id
  {
    if actions != [] { BodyKeepsId(env, s, c, actions[..|actions| - 1]); }
  }

  // ----- a transaction is a run -----

  ghost predicate Reaches(env: Env, s: State, s': State) { exists steps :: s' == Run(env, s, steps) }

  lemma ReachesNext(env: Env, s: State, s': State, step: Step)
    requires Reaches(env, s, s')
    ensures Reaches(env, s, Next(env, s', step))
  {
    var steps :| s' == Run(env, s, steps);
    assert (steps + [step])[..|steps|] == steps;
    assert Next(env, s', step) == Run(env, s, steps + [step]);
  }

  lemma {:induction false} BodyReaches(env: Env, s0: State, s: State, c: Conn, actions: seq<Action>)
    requires Reaches(env, s0, s)
    ensures Reaches(env, s0, Body(env, s, c, actions))
  {
    if actions != [] {
      var n := |actions| - 1;
      BodyReaches(env, s0, s, c, actions[..n]);
      var s1 := Body(env, s, c, actions[..n]);
      ReachesNext(env, s0, s1, StepOf(s1, c, actions[n]));
    }
  }

  /** So everything proved of runs holds after any sequence of such transactions. */
  lemma TransactionReaches(env: Env, s0: State, s: State, c: Conn, actor: Option<string>, now: Time, actions: seq<Action>, commit: Write, blank: bool)
    requires Reaches(env, s0, s)
    ensures Reaches(env, s0, Transaction(env, s, c, actor, now, actions, commit, blank))
  {
    var s1 := Next(env, s, Begin(c, actor, now));
    ReachesNext(env, s0, s, Begin(c, actor, now));
    BodyReaches(env, s0, s1, c, actions);
    ReachesNext(env, s0, Body(env, s1, c, actions), End(c, commit.Took(), blank));
  }
}
