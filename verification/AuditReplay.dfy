/** The committed audit entries of a row, replayed from its inserted values, give its current values. */
module AuditReplay {
  import opened Base
  import opened Audit

  /** The columns the log reconstructs. */
  datatype Columns = AccountColumns(status: Status, role: Role) | IdentityColumns(failed: int, locked: Option<Time>)

  function ColumnsOf(r: Record): Columns {
    match r
    case Account(st, ro, _) => AccountColumns(st, ro)
    case Identity(n, l, _) => IdentityColumns(n, l)
  }

  function New<T>(p: Option<Pair<T>>, dflt: T): T { match p case None => dflt case Some(q) => q.becomes }

  /** Applying one entry uses only its new values. */
  function Replayed(v: Columns, c: Changes): Columns {
    match v
    case AccountColumns(st, r) => AccountColumns(New(c.status, st), New(c.role, r))
    case IdentityColumns(n, l) => IdentityColumns(New(c.failed, n), New(c.locked, l))
  }

  function Replay(v: Columns, es: seq<Entry>): Columns {
    if es == [] then v else Replayed(Replay(v, es[..|es| - 1]), es[|es| - 1].changes)
  }

  predicate FieldFits<T(==)>(p: Option<Pair<T>>, current: T) { p.Some? ==> p.value.was == current && p.value.becomes != current }

  /** The entry's old values are the columns it is applied to, each recorded change is one, and it records something. */
  predicate Fits(v: Columns, c: Changes) {
    && c != NOTHING
    && match v
       case AccountColumns(st, r) => FieldFits(c.status, st) && FieldFits(c.role, r) && c.failed == None && c.locked == None && !c.hash
       case IdentityColumns(n, l) => FieldFits(c.failed, n) && FieldFits(c.locked, l) && c.status == None && c.role == None
  }

  predicate Chained(v: Columns, es: seq<Entry>) {
    es != [] ==> Chained(v, es[..|es| - 1]) && Fits(Replay(v, es[..|es| - 1]), es[|es| - 1].changes)
  }

  /** The entries of one row, in order. */
  function Of(es: seq<Entry>, k: RowKey): seq<Entry> {
    if es == [] then []
    else
      var n := |es| - 1;
      if es[n].key == k then Of(es[..n], k) + [es[n]] else Of(es[..n], k)
  }

  // ----- sequences of entries -----

  lemma {:induction false} OfAppend(a: seq<Entry>, b: seq<Entry>, k: RowKey)
    ensures Of(a + b, k) == Of(a, k) + Of(b, k)
    decreases |b|
  {
    if b == [] {
      assert a + b == a;
    } else {
      assert (a + b)[..|a + b| - 1] == a + b[..|b| - 1];
      OfAppend(a, b[..|b| - 1], k);
    }
  }

  lemma {:induction false} ReplayAppend(v: Columns, a: seq<Entry>, b: seq<Entry>)
    ensures Replay(v, a + b) == Replay(Replay(v, a), b)
    ensures Chained(v, a + b) <==> Chained(v, a) && Chained(Replay(v, a), b)
    decreases |b|
  {
    if b == [] {
      assert a + b == a;
    } else {
      assert (a + b)[..|a + b| - 1] == a + b[..|b| - 1];
      ReplayAppend(v, a, b[..|b| - 1]);
    }
  }

  lemma {:induction false} OfNone(es: seq<Entry>, k: RowKey)
    requires forall e | e in es :: e.key != k
    ensures Of(es, k) == []
  {
    if es != [] { OfNone(es[..|es| - 1], k); }
  }

  // ----- the invariant -----

  /** The entries of `k` lead from `start` to `end`. */
  ghost predicate Leads(start: Record, es: seq<Entry>, k: RowKey, end: Record) {
    Chained(ColumnsOf(start), Of(es, k)) && Replay(ColumnsOf(start), Of(es, k)) == ColumnsOf(end)
  }

  ghost predicate Covers(keys: set<RowKey>, es: seq<Entry>) { forall e | e in es :: e.key in keys }

  /** What is committed replays. */
  ghost predicate TableOk(s: State) {
    && s.base.Keys == s.table.Keys
    && Covers(s.table.Keys, s.entries)
    && forall k | k in s.table :: Leads(s.base[k], s.entries, k, s.table[k])
  }

  /** The version a transaction started from: the committed one, or the one it inserted itself. */
  function Start(table: map<RowKey, Record>, t: Txn, k: RowKey): Record
    requires k in t.created || k in table
  {
    if k in t.created then t.created[k] else table[k]
  }

  /** An open transaction's entries lead from the committed, or its own inserted, version to its working version. */
  ghost predicate TxnOk(table: map<RowKey, Record>, t: Txn) {
    && Covers(t.work.Keys, t.entries)
    && t.created.Keys <= t.work.Keys
    && t.created.Keys !! table.Keys
    && t.work.Keys <= table.Keys + t.created.Keys
    && forall k | k in t.work :: Leads(Start(table, t, k), t.entries, k, t.work[k])
  }

  ghost predicate LocksOk(s: State) {
    forall c, d | c in s.pool && d in s.pool && c != d && s.pool[c].txn.Some? && s.pool[d].txn.Some? ::
      s.pool[c].txn.value.work.Keys !! s.pool[d].txn.value.work.Keys
  }

  ghost predicate Inv(s: State) {
    && TableOk(s)
    && LocksOk(s)
    && forall c | c in s.pool && s.pool[c].txn.Some? :: TxnOk(s.table, s.pool[c].txn.value)
  }

  // ----- one statement -----

  lemma UpdatedFits(row: Record, stmt: Statement, now: Time)
    requires Updated(row, stmt, now).Some?
    ensures
      var row' := Updated(row, stmt, now).value;
      && (Diff(row, row') == NOTHING ==> ColumnsOf(row') == ColumnsOf(row))
      && (Diff(row, row') != NOTHING ==> Fits(ColumnsOf(row), Diff(row, row')) && Replayed(ColumnsOf(row), Diff(row, row')) == ColumnsOf(row'))
  {
  }

  /** One more entry of row `k` extends what leads to `row`. */
  lemma LeadsByOne(start: Record, es: seq<Entry>, k: RowKey, row: Record, e: Entry, row': Record)
    requires Leads(start, es, k, row) && e.key == k
    requires Fits(ColumnsOf(row), e.changes) && Replayed(ColumnsOf(row), e.changes) == ColumnsOf(row')
    ensures Leads(start, es + [e], k, row')
  {
    assert (es + [e])[..|es|] == es;
    var mine := Of(es, k);
    assert (mine + [e])[..|mine|] == mine;
  }

  lemma OtherRowUnmoved(es: seq<Entry>, e: Entry, k: RowKey)
    requires e.key != k
    ensures Of(es + [e], k) == Of(es, k)
  {
    assert (es + [e])[..|es|] == es;
  }

  /** Writing one row in a transaction, with the entry its trigger inserts. */
  lemma WriteKeepsTxn(table: map<RowKey, Record>, t: Txn, k: RowKey, row: Record, row': Record, entry: Option<Entry>)
    requires TxnOk(table, t) && (k in t.work || k in table)
    requires row == if k in t.work then t.work[k] else table[k]
    requires entry.None? ==> ColumnsOf(row') == ColumnsOf(row)
    requires entry.Some? ==> entry.value.key == k && Fits(ColumnsOf(row), entry.value.changes)
                             && Replayed(ColumnsOf(row), entry.value.changes) == ColumnsOf(row')
    ensures TxnOk(table, After(t, k, Wrote(row', entry)))
  {
    var t' := After(t, k, Wrote(row', entry));
    forall x | x in t'.work ensures Leads(Start(table, t', x), t'.entries, x, t'.work[x]) {
      WrittenLeads(table, t, k, row, row', entry, x);
    }
  }

  lemma WrittenLeads(table: map<RowKey, Record>, t: Txn, k: RowKey, row: Record, row': Record, entry: Option<Entry>, x: RowKey)
    requires TxnOk(table, t) && (k in t.work || k in table) && (x in t.work || x == k)
    requires row == if k in t.work then t.work[k] else table[k]
    requires entry.None? ==> ColumnsOf(row') == ColumnsOf(row)
    requires entry.Some? ==> entry.value.key == k && Fits(ColumnsOf(row), entry.value.changes)
                             && Replayed(ColumnsOf(row), entry.value.changes) == ColumnsOf(row')
    ensures var t' := After(t, k, Wrote(row', entry)); Leads(Start(table, t', x), t'.entries, x, t'.work[x])
  {
    if x == k {
      if k !in t.work { OfNone(t.entries, k); }
      assert Leads(Start(table, t, k), t.entries, k, row);
      if entry.Some? { LeadsByOne(Start(table, t, k), t.entries, k, row, entry.value, row'); }
    } else {
      assert Leads(Start(table, t, x), t.entries, x, t.work[x]);
      if entry.Some? { OtherRowUnmoved(t.entries, entry.value, x); }
    }
  }

  lemma JudgeKeepsTxn(env: Env, s: State, c: Conn, k: RowKey, stmt: Statement)
    requires Running(s, c) && TxnOk(s.table, s.pool[c].txn.value)
    ensures TxnOk(s.table, After(s.pool[c].txn.value, k, Judge(env, s, c, k, stmt)))
  {
    var t, o := s.pool[c].txn.value, Judge(env, s, c, k, stmt);
    if o.Wrote? {
      var row := Current(s, t, k);
      UpdatedFits(row, stmt, t.started);
      WriteKeepsTxn(s.table, t, k, row, o.row, o.entry);
    }
  }

  /** Locks and committed state are untouched when a transaction takes an unlocked row. */
  lemma WithTxnKeepsInv(s: State, c: Conn, t': Txn)
    requires Inv(s) && Running(s, c) && TxnOk(s.table, t')
    requires forall k | k in t'.work && k !in s.pool[c].txn.value.work :: !Locked(s, c, k)
    ensures Inv(WithTxn(s, c, t'))
  {
    var s' := WithTxn(s, c, t');
    forall x, y | x in s'.pool && y in s'.pool && x != y && s'.pool[x].txn.Some? && s'.pool[y].txn.Some?
      ensures s'.pool[x].txn.value.work.Keys !! s'.pool[y].txn.value.work.Keys
    {
      var a, b := s.pool[x].txn.value, s.pool[y].txn.value;
      assert a.work.Keys !! b.work.Keys;
    }
  }

  lemma WritesUnlocked(env: Env, s: State, c: Conn, k: RowKey, stmt: Statement)
    requires Running(s, c)
    ensures
      var t := s.pool[c].txn.value;
      forall x | x in After(t, k, Judge(env, s, c, k, stmt)).work && x !in t.work :: !Locked(s, c, x)
  {
  }

  lemma ExecKeepsInv(env: Env, s: State, c: Conn, k: RowKey, stmt: Statement)
    requires Inv(s) && Running(s, c)
    ensures Inv(Next(env, s, Exec(c, k, stmt)))
  {
    var t' := After(s.pool[c].txn.value, k, Judge(env, s, c, k, stmt));
    assert TxnOk(s.table, s.pool[c].txn.value);
    JudgeKeepsTxn(env, s, c, k, stmt);
    WritesUnlocked(env, s, c, k, stmt);
    WithTxnKeepsInv(s, c, t');
  }

  lemma InsertKeepsTxn(s: State, c: Conn, t: Txn, k: RowKey, row: Record)
    requires TxnOk(s.table, t) && Fresh(s, t, c, k)
    ensures TxnOk(s.table, t.(work := t.work[k := row], created := t.created[k := row]))
  {
    var t' := t.(work := t.work[k := row], created := t.created[k := row]);
    OfNone(t.entries, k);
    forall x | x in t'.work ensures Leads(Start(s.table, t', x), t'.entries, x, t'.work[x]) {
      if x != k { assert Leads(Start(s.table, t, x), t.entries, x, t.work[x]); }
    }
  }

  // ----- the end of a transaction -----

  lemma CommittedRow(s: State, t: Txn, k: RowKey)
    requires TableOk(s) && TxnOk(s.table, t) && (k in s.table || k in t.work)
    ensures k in s.base + t.created
    ensures Leads((s.base + t.created)[k], s.entries + t.entries, k, (s.table + t.work)[k])
  {
    OfAppend(s.entries, t.entries, k);
    if k !in t.work {
      OfNone(t.entries, k);
      assert Of(s.entries, k) + [] == Of(s.entries, k);
    } else if k in t.created {
      OfNone(s.entries, k);
      assert [] + Of(t.entries, k) == Of(t.entries, k);
    } else {
      ReplayAppend(ColumnsOf(s.base[k]), Of(s.entries, k), Of(t.entries, k));
    }
  }

  lemma CommitKeepsTable(s: State, c: Conn, blank: bool)
    requires Running(s, c) && TableOk(s) && TxnOk(s.table, s.pool[c].txn.value)
    ensures TableOk(Commit(s, c, blank))
  {
    var s', t := Commit(s, c, blank), s.pool[c].txn.value;
    forall k | k in s'.table ensures Leads(s'.base[k], s'.entries, k, s'.table[k]) { CommittedRow(s, t, k); }
  }

  lemma OthersUnmoved(table: map<RowKey, Record>, t: Txn, other: Txn)
    requires TxnOk(table, t) && TxnOk(table, other) && t.work.Keys !! other.work.Keys
    ensures TxnOk(table + t.work, other)
  {
    var table' := table + t.work;
    forall k | k in other.work ensures Leads(Start(table', other, k), other.entries, k, other.work[k]) {
      assert k !in t.work;
      assert Leads(Start(table, other, k), other.entries, k, other.work[k]);
    }
  }

  lemma EndKeepsInv(env: Env, s: State, c: Conn, commit: bool, blank: bool)
    requires Inv(s)
    ensures Inv(Next(env, s, End(c, commit, blank)))
  {
    var s' := Next(env, s, End(c, commit, blank));
    if Healthy(s, c) && commit {
      var t := s.pool[c].txn.value;
      CommitKeepsTable(s, c, blank);
      forall d | d in s'.pool && s'.pool[d].txn.Some? ensures TxnOk(s'.table, s'.pool[d].txn.value) {
        OthersUnmoved(s.table, t, s.pool[d].txn.value);
      }
    }
  }

  /** A transaction that has written nothing holds no lock and owes nothing to the log. */
  lemma EmptyTxnKeepsInv(s: State, s': State, c: Conn)
    requires Inv(s) && s'.table == s.table && s'.base == s.base && s'.entries == s.entries
    requires forall d | d in s'.pool && d != c :: d in s.pool && s'.pool[d] == s.pool[d]
    requires c in s'.pool && s'.pool[c].txn.Some? ==>
               var t := s'.pool[c].txn.value; t.work == map[] && t.created == map[] && t.entries == []
    ensures Inv(s')
  {
    forall d | d in s'.pool && s'.pool[d].txn.Some? ensures TxnOk(s'.table, s'.pool[d].txn.value) {
      if d != c { assert TxnOk(s.table, s.pool[d].txn.value); }
    }
  }

  lemma BeginKeepsInv(env: Env, s: State, c: Conn, actor: Option<string>, now: Time)
    requires Inv(s)
    ensures Inv(Next(env, s, Begin(c, actor, now)))
  {
    var s' := Next(env, s, Begin(c, actor, now));
    if s' != s { EmptyTxnKeepsInv(s, s', c); }
  }

  lemma ConnectKeepsInv(env: Env, s: State, c: Conn)
    requires Inv(s)
    ensures Inv(Next(env, s, Connect(c)))
  {
    var s' := Next(env, s, Connect(c));
    if s' != s { EmptyTxnKeepsInv(s, s', c); }
  }

  lemma InsertKeepsInv(env: Env, s: State, c: Conn, k: RowKey, row: Record)
    requires Inv(s)
    ensures Inv(Next(env, s, Insert(c, k, row)))
  {
    if Healthy(s, c) && Fresh(s, s.pool[c].txn.value, c, k) {
      var t := s.pool[c].txn.value;
      InsertKeepsTxn(s, c, t, k, row);
      WithTxnKeepsInv(s, c, t.(work := t.work[k := row], created := t.created[k := row]));
    }
  }

  lemma FailKeepsInv(env: Env, s: State, c: Conn)
    requires Inv(s)
    ensures Inv(Next(env, s, Fail(c)))
  {
    if Running(s, c) {
      var t' := s.pool[c].txn.value.(failed := true);
      assert TxnOk(s.table, s.pool[c].txn.value);
      FailedTxnOk(s.table, s.pool[c].txn.value);
      WithTxnKeepsInv(s, c, t');
    }
  }

  lemma FailedTxnOk(table: map<RowKey, Record>, t: Txn)
    requires TxnOk(table, t)
    ensures TxnOk(table, t.(failed := true))
  {
    var t' := t.(failed := true);
    forall x | x in t'.work ensures Leads(Start(table, t', x), t'.entries, x, t'.work[x]) {
      assert Leads(Start(table, t, x), t.entries, x, t.work[x]);
    }
  }

  lemma StepKeepsInv(env: Env, s: State, step: Step)
    requires Inv(s)
    ensures Inv(Next(env, s, step))
  {
    match step
    case Connect(c) => ConnectKeepsInv(env, s, c);
    case Begin(c, actor, now) => BeginKeepsInv(env, s, c, actor, now);
    case Exec(c, k, stmt) => if Running(s, c) { ExecKeepsInv(env, s, c, k, stmt); }
    case Insert(c, k, row) => InsertKeepsInv(env, s, c, k, row);
    case Fail(c) => FailKeepsInv(env, s, c);
    case End(c, commit, blank) => EndKeepsInv(env, s, c, commit, blank);
  }

  lemma {:induction false} RunKeepsInv(env: Env, s: State, steps: seq<Step>)
    requires Initial(s)
    ensures Inv(Run(env, s, steps))
  {
    if steps == [] {
      forall k | k in s.table ensures Leads(s.base[k], s.entries, k, s.table[k]) { }
    } else {
      RunKeepsInv(env, s, steps[..|steps| - 1]);
      StepKeepsInv(env, Run(env, s, steps[..|steps| - 1]), steps[|steps| - 1]);
    }
  }

  /**
   * After every interleaving of transactions, with any statement failing and any
   * transaction rolled back: the committed entries of each row, folded from its
   * inserted values, give its current status and role, or failed attempts and
   * lock, and each entry's old values are those the entries before it left.
   */
  lemma LogReplaysToState(env: Env, s: State, steps: seq<Step>, k: RowKey)
    requires Initial(s) && k in Run(env, s, steps).table
    ensures
      var s' := Run(env, s, steps);
      && k in s'.base
      && Replay(ColumnsOf(s'.base[k]), Of(s'.entries, k)) == ColumnsOf(s'.table[k])
      && Chained(ColumnsOf(s'.base[k]), Of(s'.entries, k))
  {
    RunKeepsInv(env, s, steps);
  }

  // ----- adjacent entries -----

  datatype Field = StatusField | RoleField | FailedField | LockedField

  datatype Value = StatusValue(status: Status) | RoleValue(role: Role) | FailedValue(failed: int) | LockedValue(locked: Option<Time>) | Absent

  function Read(v: Columns, f: Field): Value {
    match (v, f)
    case (AccountColumns(st, _), StatusField) => StatusValue(st)
    case (AccountColumns(_, r), RoleField) => RoleValue(r)
    case (IdentityColumns(n, _), FailedField) => FailedValue(n)
    case (IdentityColumns(_, l), LockedField) => LockedValue(l)
    case _ => Absent
  }

  function Lift<T>(p: Option<Pair<T>>, value: T -> Value): Option<Pair<Value>> {
    match p case None => None case Some(q) => Some(Pair(value(q.was), value(q.becomes)))
  }

  function Recorded(c: Changes, f: Field): Option<Pair<Value>> {
    match f
    case StatusField => Lift(c.status, x => StatusValue(x))
    case RoleField => Lift(c.role, x => RoleValue(x))
    case FailedField => Lift(c.failed, x => FailedValue(x))
    case LockedField => Lift(c.locked, x => LockedValue(x))
  }

  lemma FitsField(v: Columns, c: Changes, f: Field)
    requires Fits(v, c)
    ensures match Recorded(c, f)
            case None => Read(Replayed(v, c), f) == Read(v, f)
            case Some(p) => p.was == Read(v, f) != p.becomes && Read(Replayed(v, c), f) == p.becomes
  {
    match v {
      case AccountColumns(_, _) =>
      case IdentityColumns(_, _) =>
    }
  }

  lemma {:induction false} ChainedPrefix(v: Columns, es: seq<Entry>, n: nat)
    requires Chained(v, es) && n <= |es|
    ensures Chained(v, es[..n])
  {
    assert es[..n] + es[n..] == es;
    ReplayAppend(v, es[..n], es[n..]);
  }

  /** One entry of a chain, seen from the columns before it. */
  lemma EntryInChain(v: Columns, es: seq<Entry>, i: nat, f: Field)
    requires Chained(v, es) && i < |es|
    ensures match Recorded(es[i].changes, f)
            case None => Read(Replay(v, es[..i + 1]), f) == Read(Replay(v, es[..i]), f)
            case Some(p) => p.was == Read(Replay(v, es[..i]), f) != p.becomes && Read(Replay(v, es[..i + 1]), f) == p.becomes
  {
    ChainedPrefix(v, es, i + 1);
    assert es[..i + 1][..i] == es[..i];
    FitsField(Replay(v, es[..i]), es[i].changes, f);
  }

  lemma {:induction false} QuietKeeps(v: Columns, es: seq<Entry>, i: nat, j: nat, f: Field)
    requires Chained(v, es) && i <= j <= |es|
    requires forall x | i <= x < j :: Recorded(es[x].changes, f).None?
    ensures Read(Replay(v, es[..j]), f) == Read(Replay(v, es[..i]), f)
    decreases j
  {
    if i < j {
      EntryInChain(v, es, j - 1, f);
      QuietKeeps(v, es, i, j - 1, f);
    }
  }

  /** Two changes of a column with none between them meet: the new value of the first is the old value of the second. */
  lemma AdjacentEntriesMeet(v: Columns, es: seq<Entry>, i: nat, j: nat, f: Field)
    requires Chained(v, es) && i < j < |es|
    requires Recorded(es[i].changes, f).Some? && Recorded(es[j].changes, f).Some?
    requires forall x | i < x < j :: Recorded(es[x].changes, f).None?
    ensures Recorded(es[i].changes, f).value.becomes == Recorded(es[j].changes, f).value.was
  {
    EntryInChain(v, es, i, f);
    QuietKeeps(v, es, i + 1, j, f);
    EntryInChain(v, es, j, f);
  }
}
