/** What the statements do to a row and to their transaction. */
module AuditStatements {
  import opened Base
  import opened Audit
  import opened AuditActor
  import Sessions

  /** Statements on an account: status and role change only while it is not deleted, an admin's role never, deletion is a mark. */
  lemma AccountStatements(st: Status, r: Role, deleted: bool, now: Time)
    ensures
      var row := Account(st, r, deleted);
      && (forall x :: Updated(row, SetStatus(x), now) == Some(if deleted then row else Account(x, r, false)))
      && (forall x :: Updated(row, SetRole(x), now).None? <==> !deleted && r == Sessions.Admin && x != Sessions.Admin)
      && (forall x | Updated(row, SetRole(x), now).Some? :: Updated(row, SetRole(x), now) == Some(if deleted then row else Account(st, x, false)))
      && Updated(row, SoftDelete, now) == Some(Account(st, r, true))
  {
  }

  /** Statements on an identity: the counter goes up by one until the column is full, a lock carries the transaction's instant, a reset clears both. */
  lemma IdentityStatements(n: int, l: Option<Time>, h: Secret, now: Time)
    ensures
      var row := Identity(n, l, h);
      && (Updated(row, IncrementFailed, now).None? <==> n >= 2147483647)
      && (n < 2147483647 ==> Updated(row, IncrementFailed, now) == Some(Identity(n + 1, l, h)))
      && Updated(row, Lock, now) == Some(Identity(n, Some(now), h))
      && Updated(row, ResetFailed, now) == Some(Identity(0, None, h))
      && (forall x :: Updated(row, SetHash(x), now) == Some(Identity(n, l, x)))
  {
  }

  /** One statement in an open transaction: what it writes, and whether its trigger writes an entry. */
  lemma ExecEffect(env: Env, s: State, c: Conn, k: RowKey, stmt: Statement)
    requires Healthy(s, c) && !Locked(s, c, k) && Visible(s, s.pool[c].txn.value, k)
    ensures
      var t, t' := s.pool[c].txn.value, Next(env, s, Exec(c, k, stmt)).pool[c].txn.value;
      var row, updated := Current(s, t, k), Updated(Current(s, t, k), stmt, t.started);
      if updated.None? then t' == t.(failed := true)
      else if Diff(row, updated.value) == NOTHING then t' == t.(work := t.work[k := updated.value])
      else if Cast(env, Setting(s.pool[c])).None? then t' == t.(failed := true)
      else
        && t'.work == t.work[k := updated.value] && !t'.failed && |t'.entries| == |t.entries| + 1 && t'.entries[..|t.entries|] == t.entries
        && t'.entries[|t.entries|] == Entry(Cast(env, Setting(s.pool[c])).value, k, Diff(row, updated.value), t.id, t.started)
  {
  }

  // ----- a failed transaction never commits -----

  /** The transaction is open and has failed, or is over without having committed. */
  ghost predicate Doomed(s: State, t: TxId) {
    && t in s.begun && t !in s.committed
    && forall c | c in s.pool && s.pool[c].txn.Some? && s.pool[c].txn.value.id == t :: s.pool[c].txn.value.failed
  }

  lemma StepKeepsDoomed(env: Env, s: State, step: Step, t: TxId)
    requires Inv(env, s) && Doomed(s, t)
    ensures Doomed(Next(env, s, step), t)
  {
    assert t < s.next;
  }

  /** Once a statement has raised an error, or the caller's function has, nothing of the transaction is ever committed. */
  lemma {:induction false} FailedNeverCommits(env: Env, s: State, steps: seq<Step>, t: TxId)
    requires Inv(env, s) && Doomed(s, t)
    ensures Doomed(Run(env, s, steps), t) && forall e | e in Run(env, s, steps).entries :: e.xmin != t
  {
    RunKeepsInv(env, s, steps);
    if steps != [] {
      FailedNeverCommits(env, s, steps[..|steps| - 1], t);
      RunKeepsInv(env, s, steps[..|steps| - 1]);
      StepKeepsDoomed(env, Run(env, s, steps[..|steps| - 1]), steps[|steps| - 1], t);
    }
  }

  /** A statement that takes an admin's role, or counts past the column, dooms its transaction. */
  lemma RaisedDooms(env: Env, s: State, c: Conn, k: RowKey, stmt: Statement)
    requires Inv(env, s) && Healthy(s, c) && !Locked(s, c, k) && Visible(s, s.pool[c].txn.value, k)
    requires
      var row := Current(s, s.pool[c].txn.value, k);
      || (row.Account? && !row.deleted && row.role == Sessions.Admin && stmt.SetRole? && stmt.role != Sessions.Admin)
      || (row.Identity? && row.failed >= 2147483647 && stmt.IncrementFailed?)
    ensures Doomed(Next(env, s, Exec(c, k, stmt)), s.pool[c].txn.value.id)
  {
    assert OpenOk(env, s, s.pool[c].txn.value);
  }

  // ----- what is recorded -----

  /** An account entry records status and role, each exactly if it changed, with old and new value. */
  lemma AccountDiff(st: Status, r: Role, del: bool, st': Status, r': Role, del': bool)
    ensures
      var d := Diff(Account(st, r, del), Account(st', r', del'));
      && d.status == (if st == st' then None else Some(Pair(st, st')))
      && d.role == (if r == r' then None else Some(Pair(r, r')))
      && d.failed == None && d.locked == None && !d.hash
      && (d == NOTHING <==> st == st' && r == r')
  {
  }

  /** An identity entry records counter and lock in the same way, and that the hash changed, without its values. */
  lemma IdentityDiff(n: int, l: Option<Time>, h: Secret, n': int, l': Option<Time>, h': Secret)
    ensures
      var d := Diff(Identity(n, l, h), Identity(n', l', h'));
      && d.failed == (if n == n' then None else Some(Pair(n, n')))
      && d.locked == (if l == l' then None else Some(Pair(l, l')))
      && (d.hash <==> h != h') && d.status == None && d.role == None
      && (d == NOTHING <==> n == n' && l == l' && h == h')
  {
  }
}
