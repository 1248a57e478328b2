/**
 * The only order `audit_logs` itself records is `created_at`, the start of the
 * transaction. When folding a row's entries in that order gives its columns.
 */
module AuditOrder {
  import opened Base
  import opened Audit
  import opened AuditReplay
  import Sessions

  ghost predicate Ordered(es: seq<Entry>) { forall i, j | 0 <= i < j < |es| :: es[i].created <= es[j].created }

  /** `es'` lists the entries `es` by their creation time, ties in any order. */
  ghost predicate ByStart(es: seq<Entry>, es': seq<Entry>) { multiset(es') == multiset(es) && Ordered(es') }

  // ----- sorting -----

  /** Where `e` goes in an ordered list so that only younger entries follow. */
  lemma {:induction false} FindPlace(es: seq<Entry>, e: Entry) returns (p: nat)
    requires Ordered(es)
    ensures p <= |es|
    ensures forall j | 0 <= j < p :: es[j].created <= e.created
    ensures forall j | p <= j < |es| :: es[j].created > e.created
  {
    p := |es|;
    if es != [] && es[|es| - 1].created > e.created { p := FindPlace(es[..|es| - 1], e); }
  }

  lemma PutInPlace(es: seq<Entry>, e: Entry) returns (es': seq<Entry>, p: nat)
    requires Ordered(es)
    ensures ByStart(es + [e], es') && p < |es'| && es'[p] == e && forall j | p < j < |es'| :: es'[j].created > e.created
  {
    p := FindPlace(es, e);
    es' := es[..p] + [e] + es[p..];
    SplicedMembers(es, e, p);
    SplicedOrdered(es, e, p);
  }

  lemma SplicedMembers(es: seq<Entry>, e: Entry, p: nat)
    requires p <= |es|
    ensures multiset(es[..p] + [e] + es[p..]) == multiset(es + [e])
  {
    assert es == es[..p] + es[p..];
  }

  lemma SplicedOrdered(es: seq<Entry>, e: Entry, p: nat)
    requires Ordered(es) && p <= |es|
    requires forall j | 0 <= j < p :: es[j].created <= e.created
    requires forall j | p <= j < |es| :: es[j].created > e.created
    ensures Ordered(es[..p] + [e] + es[p..])
    ensures forall j | p < j <= |es| :: (es[..p] + [e] + es[p..])[j].created > e.created
  {
    var r := es[..p] + [e] + es[p..];
    forall j | 0 <= j < |r| ensures r[j] == if j < p then es[j] else if j == p then e else es[j - 1] { }
  }

  lemma {:induction false} Sort(es: seq<Entry>) returns (es': seq<Entry>)
    ensures ByStart(es, es')
  {
    es' := [];
    if es != [] {
      var n := |es| - 1;
      var front := Sort(es[..n]);
      var p;
      es', p := PutInPlace(front, es[n]);
      assert es == es[..n] + [es[n]];
    }
  }

  // ----- the last entry that touches a column decides it -----

  predicate Touches(e: Entry, f: Field) { Recorded(e.changes, f).Some? }

  /** The entry belongs to a row of this kind. */
  predicate OfKind(v: Columns, c: Changes) {
    match v
    case AccountColumns(_, _) => c.failed == None && c.locked == None
    case IdentityColumns(_, _) => c.status == None && c.role == None
  }

  lemma ReplayedField(v: Columns, c: Changes, f: Field)
    requires OfKind(v, c)
    ensures Read(Replayed(v, c), f) == match Recorded(c, f) case None => Read(v, f) case Some(p) => p.becomes
    ensures Replayed(v, c).AccountColumns? == v.AccountColumns?
  {
    match f {
      case StatusField =>
      case RoleField =>
      case FailedField =>
      case LockedField =>
    }
  }

  ghost predicate AllOfKind(v: Columns, es: seq<Entry>) { forall e | e in es :: OfKind(v, e.changes) }

  lemma {:induction false} ReplayKeepsKind(v: Columns, es: seq<Entry>)
    ensures Replay(v, es).AccountColumns? == v.AccountColumns?
  {
    if es != [] { ReplayKeepsKind(v, es[..|es| - 1]); }
  }

  lemma {:induction false} UntouchedField(v: Columns, es: seq<Entry>, f: Field)
    requires AllOfKind(v, es) && forall e | e in es :: !Touches(e, f)
    ensures Read(Replay(v, es), f) == Read(v, f)
  {
    if es != [] {
      var n := |es| - 1;
      UntouchedField(v, es[..n], f);
      ReplayKeepsKind(v, es[..n]);
      assert es[n] in es;
      ReplayedField(Replay(v, es[..n]), es[n].changes, f);
    }
  }

  lemma {:induction false} LastTouchDecides(v: Columns, es: seq<Entry>, f: Field, m: nat)
    requires AllOfKind(v, es) && m < |es| && Touches(es[m], f) && forall j | m < j < |es| :: !Touches(es[j], f)
    ensures Read(Replay(v, es), f) == Recorded(es[m].changes, f).value.becomes
  {
    var n := |es| - 1;
    ReplayKeepsKind(v, es[..n]);
    assert es[n] in es;
    ReplayedField(Replay(v, es[..n]), es[n].changes, f);
    if m < n { LastTouchDecides(v, es[..n], f, m); }
  }

  lemma {:induction false} FindLastTouch(es: seq<Entry>, f: Field) returns (m: nat)
    requires exists e :: e in es && Touches(e, f)
    ensures m < |es| && Touches(es[m], f) && forall j | m < j < |es| :: !Touches(es[j], f)
  {
    var n := |es| - 1;
    if Touches(es[n], f) {
      m := n;
    } else {
      m := FindLastTouch(es[..n], f);
    }
  }

  lemma SameReads(a: Columns, b: Columns)
    requires a.AccountColumns? == b.AccountColumns? && forall f: Field :: Read(a, f) == Read(b, f)
    ensures a == b
  {
    assert Read(a, StatusField) == Read(b, StatusField) && Read(a, RoleField) == Read(b, RoleField);
    assert Read(a, FailedField) == Read(b, FailedField) && Read(a, LockedField) == Read(b, LockedField);
  }

  lemma {:induction false} ChainedIsOfKind(v: Columns, es: seq<Entry>)
    requires Chained(v, es)
    ensures AllOfKind(v, es)
  {
    if es != [] {
      var n := |es| - 1;
      ChainedIsOfKind(v, es[..n]);
      ReplayKeepsKind(v, es[..n]);
      assert es == es[..n] + [es[n]];
    }
  }

  // ----- exactly when the order of starts replays -----

  /** The entry touches the column and no entry that does was created later. */
  ghost predicate Latest(es: seq<Entry>, e: Entry, f: Field) {
    e in es && Touches(e, f) && forall d | d in es && Touches(d, f) :: d.created <= e.created
  }

  /** In each column, every entry created last among those that touch it records the value that was committed last. */
  ghost predicate LatestIsCurrent(v: Columns, es: seq<Entry>) {
    forall e, f | Latest(es, e, f) :: Recorded(e.changes, f).value.becomes == Read(Replay(v, es), f)
  }

  lemma LatestSuffices(v: Columns, es: seq<Entry>, es': seq<Entry>)
    requires Chained(v, es) && LatestIsCurrent(v, es) && ByStart(es, es')
    ensures Replay(v, es') == Replay(v, es)
  {
    ChainedIsOfKind(v, es);
    SameMembers(es, es');
    ReplayKeepsKind(v, es);
    ReplayKeepsKind(v, es');
    forall f: Field ensures Read(Replay(v, es'), f) == Read(Replay(v, es), f) { LatestSufficesFor(v, es, es', f); }
    SameReads(Replay(v, es'), Replay(v, es));
  }

  lemma LatestSufficesFor(v: Columns, es: seq<Entry>, es': seq<Entry>, f: Field)
    requires AllOfKind(v, es) && AllOfKind(v, es') && (forall e :: e in es' <==> e in es) && Ordered(es')
    requires forall e | Latest(es, e, f) :: Recorded(e.changes, f).value.becomes == Read(Replay(v, es), f)
    ensures Read(Replay(v, es'), f) == Read(Replay(v, es), f)
  {
    if exists e :: e in es' && Touches(e, f) {
      var m := FindLastTouch(es', f);
      LastTouchDecides(v, es', f, m);
      LastIsLatest(es, es', f, m);
    } else {
      UntouchedField(v, es', f);
      UntouchedField(v, es, f);
    }
  }

  lemma LastIsLatest(es: seq<Entry>, es': seq<Entry>, f: Field, m: nat)
    requires (forall e :: e in es' <==> e in es) && Ordered(es')
    requires m < |es'| && Touches(es'[m], f) && forall j | m < j < |es'| :: !Touches(es'[j], f)
    ensures Latest(es, es'[m], f)
  {
    forall d | d in es && Touches(d, f) ensures d.created <= es'[m].created {
      var j :| 0 <= j < |es'| && es'[j] == d;
    }
  }

  lemma SameMembers(es: seq<Entry>, es': seq<Entry>)
    requires multiset(es') == multiset(es)
    ensures forall e :: e in es' <==> e in es
  {
    forall e ensures e in es' <==> e in es {
      assert e in multiset(es') <==> e in es';
      assert e in multiset(es) <==> e in es;
    }
  }

  /** Any latest entry of a column comes last of those that touch it in some order by start. */
  lemma LatestCanComeLast(v: Columns, es: seq<Entry>, e: Entry, f: Field) returns (es': seq<Entry>)
    requires Chained(v, es) && Latest(es, e, f)
    ensures ByStart(es, es') && Read(Replay(v, es'), f) == Recorded(e.changes, f).value.becomes
  {
    var i :| 0 <= i < |es| && es[i] == e;
    var others := es[..i] + es[i + 1..];
    assert es == es[..i] + [e] + es[i + 1..];
    assert multiset(others + [e]) == multiset(es);
    var sorted := Sort(others);
    var m;
    es', m := PutInPlace(sorted, e);
    SameMembers(es, es');
    ChainedIsOfKind(v, es);
    forall j | m < j < |es'| ensures !Touches(es'[j], f) { assert es'[j] in es; }
    LastTouchDecides(v, es', f, m);
  }

  /** Every order by start replays to the committed columns if and only if in each column the entries created last record the current value. */
  lemma StartOrderReplaysIff(v: Columns, es: seq<Entry>)
    requires Chained(v, es)
    ensures (forall es' | ByStart(es, es') :: Replay(v, es') == Replay(v, es)) <==> LatestIsCurrent(v, es)
  {
    if LatestIsCurrent(v, es) {
      forall es' | ByStart(es, es') ensures Replay(v, es') == Replay(v, es) { LatestSuffices(v, es, es'); }
    } else {
      var e, f :| Latest(es, e, f) && Recorded(e.changes, f).value.becomes != Read(Replay(v, es), f);
      var es' := LatestCanComeLast(v, es, e, f);
    }
  }

  // ----- exactly when the order of starts is the order of commits -----

  /** Each entry of the row was created before the next ones, unless they are indistinguishable. */
  ghost predicate StartsIncrease(es: seq<Entry>) {
    forall i, j | 0 <= i < j < |es| :: es[i].created < es[j].created || es[i] == es[j]
  }

  lemma LastAgrees(es: seq<Entry>, es': seq<Entry>)
    requires StartsIncrease(es) && ByStart(es, es') && es != []
    ensures |es'| == |es| && es'[|es| - 1] == es[|es| - 1]
  {
    assert |multiset(es')| == |multiset(es)|;
    var n := |es| - 1;
    SameMembers(es, es');
    assert es'[n] in es && es[n] in es';
    var i :| 0 <= i < |es| && es[i] == es'[n];
    var j :| 0 <= j < |es'| && es'[j] == es[n];
    assert es'[j].created <= es'[n].created;
  }

  lemma FrontAgrees(es: seq<Entry>, es': seq<Entry>, n: nat)
    requires |es| == |es'| == n + 1 && es'[n] == es[n] && multiset(es') == multiset(es)
    ensures multiset(es'[..n]) == multiset(es[..n])
  {
    assert es == es[..n] + [es[n]] && es' == es'[..n] + [es'[n]];
    assert multiset(es[..n]) == multiset(es) - multiset{es[n]};
    assert multiset(es'[..n]) == multiset(es') - multiset{es[n]};
  }

  lemma {:induction false} IncreasingIsUnique(es: seq<Entry>, es': seq<Entry>)
    requires StartsIncrease(es) && ByStart(es, es')
    ensures es' == es
    decreases |es|
  {
    if es == [] {
      assert |multiset(es')| == |multiset(es)|;
    } else {
      var n := |es| - 1;
      LastAgrees(es, es');
      FrontAgrees(es, es', n);
      IncreasingIsUnique(es[..n], es'[..n]);
      assert es == es[..n] + [es[n]] && es' == es'[..n] + [es'[n]];
    }
  }

  lemma Swapped(es: seq<Entry>, i: int, j: int)
    requires 0 <= i < j < |es|
    ensures multiset(es[i := es[j]][j := es[i]]) == multiset(es)
  {
  }

  /** The order by start is the order of the commits, whatever the ties, if and only if starts increase along the row's entries. */
  lemma StartOrderIsCommitOrderIff(es: seq<Entry>)
    ensures (forall es' | ByStart(es, es') :: es' == es) <==> StartsIncrease(es)
  {
    if StartsIncrease(es) {
      forall es' | ByStart(es, es') ensures es' == es { IncreasingIsUnique(es, es'); }
    } else if !Ordered(es) {
      var es' := Sort(es);
      assert es' != es;
    } else {
      var i, j :| 0 <= i < j < |es| && es[i].created >= es[j].created && es[i] != es[j];
      var es' := es[i := es[j]][j := es[i]];
      Swapped(es, i, j);
      assert ByStart(es, es') && es'[i] != es[i];
    }
  }

  // ----- over runs -----

  /**
   * In every reachable state: folding a row's entries by `created_at` gives its
   * current columns, in whatever order equal times come, if and only if in each
   * column the entries created last record the current value; and that order is
   * the one the changes were committed in if and only if starts increase along
   * the row's entries.
   */
  lemma LogReplaysByStartIff(env: Env, s: State, steps: seq<Step>, k: RowKey)
    requires Initial(s) && k in Run(env, s, steps).table
    ensures
      var s' := Run(env, s, steps);
      && k in s'.base
      && var v, es := ColumnsOf(s'.base[k]), Of(s'.entries, k);
      && ((forall es' | ByStart(es, es') :: Replay(v, es') == ColumnsOf(s'.table[k])) <==> LatestIsCurrent(v, es))
      && ((forall es' | ByStart(es, es') :: es' == es) <==> StartsIncrease(es))
      && (StartsIncrease(es) ==> LatestIsCurrent(v, es))
  {
    LogReplaysToState(env, s, steps, k);
    var s' := Run(env, s, steps);
    var v, es := ColumnsOf(s'.base[k]), Of(s'.entries, k);
    StartOrderReplaysIff(v, es);
    StartOrderIsCommitOrderIff(es);
  }

  // ----- a run in which the order of starts misleads -----

  lemma {:induction false} RunAppend(env: Env, s: State, a: seq<Step>, b: seq<Step>)
    ensures Run(env, s, a + b) == Run(env, Run(env, s, a), b)
    decreases |b|
  {
    if b == [] {
      assert a + b == a;
    } else {
      assert (a + b)[..|a + b| - 1] == a + b[..|b| - 1];
      RunAppend(env, s, a, b[..|b| - 1]);
    }
  }

  lemma RunTwo(env: Env, s: State, a: Step, b: Step)
    ensures Run(env, s, [a, b]) == Next(env, Next(env, s, a), b)
  {
    assert [a, b][..1] == [a] && [a][..0] == [];
    assert Run(env, s, []) == s;
    assert Run(env, s, [a]) == Next(env, s, a);
  }

  /** A transaction without an actor that has done nothing yet. */
  function Begun(id: TxId, now: Time): Txn { Txn(id, None, now, map[], map[], [], false) }

  function StatusEntry(k: RowKey, was: Status, becomes: Status, t: Txn): Entry {
    Entry(None, k, Changes(Some(Pair(was, becomes)), None, None, None, false), t.id, t.started)
  }

  /** Such a transaction changes one status and commits. */
  lemma StatusChangeCommits(env: Env, s: State, c: Conn, t: Txn, k: RowKey, was: Record, st: Status)
    requires c in s.pool && s.pool[c] == Connection(None, Some(t)) && t == Begun(t.id, t.started)
    requires k in s.table && s.table[k] == was && was.Account? && !was.deleted && was.status != st && !Locked(s, c, k)
    ensures
      var s' := Run(env, s, [Exec(c, k, SetStatus(st)), End(c, true, false)]);
      && s'.table == s.table[k := was.(status := st)] && s'.base == s.base
      && s'.entries == s.entries + [StatusEntry(k, was.status, st, t)]
      && s'.pool == s.pool[c := Connection(None, None)]
  {
    RunTwo(env, s, Exec(c, k, SetStatus(st)), End(c, true, false));
    StatusChangeWrites(env, s, c, t, k, was, st);
    var t' := t.(work := map[k := was.(status := st)], entries := [StatusEntry(k, was.status, st, t)]);
    PlainCommit(env, s.(pool := s.pool[c := Connection(None, Some(t'))]), c, t');
    assert s.pool[c := Connection(None, Some(t'))][c := Connection(None, None)] == s.pool[c := Connection(None, None)];
    assert s.table + map[k := was.(status := st)] == s.table[k := was.(status := st)];
  }

  lemma PlainCommit(env: Env, s: State, c: Conn, t: Txn)
    requires c in s.pool && s.pool[c] == Connection(None, Some(t)) && t.actor == None && t.created == map[] && !t.failed
    ensures
      var s' := Next(env, s, End(c, true, false));
      && s'.table == s.table + t.work && s'.base == s.base && s'.entries == s.entries + t.entries
      && s'.pool == s.pool[c := Connection(None, None)]
  {
    assert s.base + map[] == s.base;
  }

  lemma StatusChangeWrites(env: Env, s: State, c: Conn, t: Txn, k: RowKey, was: Record, st: Status)
    requires c in s.pool && s.pool[c] == Connection(None, Some(t)) && t == Begun(t.id, t.started)
    requires k in s.table && s.table[k] == was && was.Account? && !was.deleted && was.status != st && !Locked(s, c, k)
    ensures
      var t' := t.(work := map[k := was.(status := st)], entries := [StatusEntry(k, was.status, st, t)]);
      Next(env, s, Exec(c, k, SetStatus(st))) == s.(pool := s.pool[c := Connection(None, Some(t'))])
  {
    var e := StatusEntry(k, was.status, st, t);
    assert Diff(was, was.(status := st)) == e.changes && e.changes != NOTHING;
    assert Judge(env, s, c, k, SetStatus(st)) == Wrote(was.(status := st), Some(e));
    assert t.entries + [e] == [e] && t.work[k := was.(status := st)] == map[k := was.(status := st)];
  }

  function TwoIdle(s: State, c: Conn, d: Conn): State {
    s.(pool := map[c := Connection(None, None), d := Connection(None, None)])
  }

  lemma BothConnect(env: Env, s: State, c: Conn, d: Conn)
    requires Initial(s) && c != d
    ensures Run(env, s, [Connect(c), Connect(d)]) == TwoIdle(s, c, d)
  {
    RunTwo(env, s, Connect(c), Connect(d));
  }

  /** Two connections open a transaction each, at instants 1 and 2. */
  lemma BothBegin(env: Env, s: State, c: Conn, d: Conn)
    requires Initial(s) && c != d
    ensures
      var s' := Run(env, s, [Connect(c), Connect(d)] + [Begin(c, None, 1), Begin(d, None, 2)]);
      && s'.table == s.table && s'.base == s.base && s'.entries == []
      && s'.pool == map[c := Connection(None, Some(Begun(s.next, 1))), d := Connection(None, Some(Begun(s.next + 1, 2)))]
  {
    RunAppend(env, s, [Connect(c), Connect(d)], [Begin(c, None, 1), Begin(d, None, 2)]);
    BothConnect(env, s, c, d);
    RunTwo(env, TwoIdle(s, c, d), Begin(c, None, 1), Begin(d, None, 2));
    var first, second := Connection(None, Some(Begun(s.next, 1))), Connection(None, Some(Begun(s.next + 1, 2)));
    PairUpdated(c, d, Connection(None, None), first, second);
    var s2 := Next(env, TwoIdle(s, c, d), Begin(c, None, 1));
    assert s2.pool == TwoIdle(s, c, d).pool[c := first] && s2.next == s.next + 1;
  }

  lemma PairUpdated(c: Conn, d: Conn, idle: Connection, x: Connection, y: Connection)
    requires c != d
    ensures map[c := idle, d := idle][c := x][d := y] == map[c := x, d := y]
    ensures d in map[c := idle, d := idle][c := x] && map[c := idle, d := idle][c := x][d] == idle
  {
  }

  /** The transaction on `c` starts first and activates the user after the one on `d` has banned him. */
  function BannedThenActive(c: Conn, d: Conn, k: RowKey): seq<Step> {
    [Connect(c), Connect(d)] + [Begin(c, None, 1), Begin(d, None, 2)]
    + [Exec(d, k, SetStatus(Sessions.Banned)), End(d, true, false)]
    + [Exec(c, k, SetStatus(Sessions.Active)), End(c, true, false)]
  }

  lemma BannedThenActiveRuns(env: Env, s: State, c: Conn, d: Conn, k: RowKey, was: Record)
    requires Initial(s) && c != d && k in s.table && s.table[k] == was && was.Account? && !was.deleted && was.status == Sessions.Active
    ensures
      var s' := Run(env, s, BannedThenActive(c, d, k));
      && s'.table == s.table && s'.base == s.base
      && s'.entries == [StatusEntry(k, Sessions.Active, Sessions.Banned, Begun(s.next + 1, 2)),
                        StatusEntry(k, Sessions.Banned, Sessions.Active, Begun(s.next, 1))]
  {
    var begin := [Connect(c), Connect(d)] + [Begin(c, None, 1), Begin(d, None, 2)];
    var ban := [Exec(d, k, SetStatus(Sessions.Banned)), End(d, true, false)];
    var activate := [Exec(c, k, SetStatus(Sessions.Active)), End(c, true, false)];
    RunAppend(env, s, begin + ban, activate);
    RunAppend(env, s, begin, ban);
    BothBegin(env, s, c, d);
    var s1 := Run(env, s, begin);
    StatusChangeCommits(env, s1, d, Begun(s.next + 1, 2), k, was, Sessions.Banned);
    var s2 := Run(env, s1, ban);
    StatusChangeCommits(env, s2, c, Begun(s.next, 1), k, was.(status := Sessions.Banned), Sessions.Active);
    var s3 := Run(env, s2, activate);
    assert s3.table == s.table;
  }

  lemma TwoEntries(v: Columns, k: RowKey, e: Entry, d: Entry, role: Role)
    requires v == AccountColumns(Sessions.Active, role) && e.key == k && d.key == k && d.created < e.created
    requires e.changes == NOTHING.(status := Some(Pair(Sessions.Active, Sessions.Banned)))
    requires d.changes == NOTHING.(status := Some(Pair(Sessions.Banned, Sessions.Active)))
    ensures Of([e, d], k) == [e, d] && ByStart([e, d], [d, e])
    ensures Replay(v, [e, d]) == v && Replay(v, [d, e]) == AccountColumns(Sessions.Banned, role)
    ensures !LatestIsCurrent(v, [e, d])
  {
    PairReplayed(v, k, e, d);
    PairReplayed(v, k, d, e);
    assert [e] + [d] == [e, d] && [d] + [e] == [d, e];
    assert Latest([e, d], e, StatusField);
  }

  lemma PairReplayed(v: Columns, k: RowKey, a: Entry, b: Entry)
    requires a.key == k && b.key == k
    ensures Of([a, b], k) == [a, b] && Replay(v, [a, b]) == Replayed(Replayed(v, a.changes), b.changes)
  {
    assert [a, b][..1] == [a] && [a][..0] == [];
    assert Of([a], k) == [a] && Replay(v, [a]) == Replayed(v, a.changes);
    assert [a] + [b] == [a, b];
  }

  /** There the entries listed by start replay to banned, while the row says active. */
  lemma StartOrderMisleads(env: Env, s: State, c: Conn, d: Conn, k: RowKey, was: Record)
    requires Initial(s) && c != d && k in s.table && s.table[k] == was && was.Account? && !was.deleted && was.status == Sessions.Active
    ensures
      var s' := Run(env, s, BannedThenActive(c, d, k));
      && k in s'.table && s'.table[k] == was && k in s'.base
      && (exists es' :: ByStart(Of(s'.entries, k), es')
           && Replay(ColumnsOf(s'.base[k]), es') == AccountColumns(Sessions.Banned, was.role))
      && !LatestIsCurrent(ColumnsOf(s'.base[k]), Of(s'.entries, k))
  {
    BannedThenActiveRuns(env, s, c, d, k, was);
    TwoEntries(ColumnsOf(was), k, StatusEntry(k, Sessions.Active, Sessions.Banned, Begun(s.next + 1, 2)),
               StatusEntry(k, Sessions.Banned, Sessions.Active, Begun(s.next, 1)), was.role);
  }
}
