/** The scheduled cleanup jobs and the loop that runs them. */
module Maintenance {
  import opened Base

  const KEEP: nat := 5
  const LOG_LIFE: Time := 7776000

  type Id = nat

  datatype Reset = Reset(user: Id, created: Time, expires: Time, used: bool)
  datatype Session = Session(created: Time, expires: Time, revoked: bool)
  datatype Factor = Factor(verified: bool, created: Time)

  datatype State = State(resets: map<Id, Reset>, logins: map<Id, Time>, factors: map<Id, Factor>, sessions: map<Id, Session>)

  datatype Job = RemoveExpiredResets | RemoveOldResets | RemoveOldLogins | RemovePendingFactors | RevokeExpired | RevokeOld

  const JOBS: seq<Job> := [RemoveExpiredResets, RemoveOldResets, RemoveOldLogins, RemovePendingFactors, RevokeExpired, RevokeOld]

  /** One instant, and the order in which the window function lists a table: ties are broken as the planner likes. */
  datatype Env = Env(now: Time, order: map<Id, Reset> -> seq<Id>)

  // ----- password resets -----

  predicate Stale(r: Reset, now: Time) { !r.used && r.expires < now }

  ghost predicate NoRepeats(order: seq<Id>) { forall i, j | 0 <= i < j < |order| :: order[i] != order[j] }

  ghost predicate NewestFirst(m: map<Id, Reset>, order: seq<Id>) {
    forall i, j | 0 <= i < j < |order| && order[i] in m && order[j] in m && m[order[i]].user == m[order[j]].user ::
      m[order[i]].created >= m[order[j]].created
  }

  /** The order lists each row once, each user's rows newest first. */
  ghost predicate Sorted(m: map<Id, Reset>, order: seq<Id>) {
    (forall id :: id in m <==> id in order) && NoRepeats(order) && NewestFirst(m, order)
  }

  ghost predicate SortedEnv(env: Env) { forall m :: Sorted(m, env.order(m)) }

  /** The user's rows among the first `n` of the order. */
  function Among(m: map<Id, Reset>, order: seq<Id>, n: nat, u: Id): set<Id>
    requires n <= |order|
  {
    set id | id in order[..n] && id in m && m[id].user == u
  }

  /** `rn <= 5`: fewer than five rows of the same user come before. */
  predicate Kept(m: map<Id, Reset>, order: seq<Id>, i: nat)
    requires i < |order|
  {
    order[i] in m && |Among(m, order, i, m[order[i]].user)| < KEEP
  }

  function KeptIds(m: map<Id, Reset>, order: seq<Id>): set<Id> {
    set i | 0 <= i < |order| && Kept(m, order, i) :: order[i]
  }

  function OfUser(m: map<Id, Reset>, u: Id): set<Id> { set id | id in m && m[id].user == u }

  // ----- the jobs -----

  function RevokeWhere(sessions: map<Id, Session>, expiredBefore: Option<Time>, createdBefore: Option<Time>): map<Id, Session> {
    map id | id in sessions ::
      var r := sessions[id];
      if (expiredBefore.Some? && r.expires < expiredBefore.value) || (createdBefore.Some? && r.created < createdBefore.value)
      then r.(revoked := true) else r
  }

  function Fresh(m: map<Id, Reset>, now: Time): map<Id, Reset> { map id | id in m && !Stale(m[id], now) :: m[id] }

  function Trimmed(m: map<Id, Reset>, order: seq<Id>): map<Id, Reset> { map id | id in m && id in KeptIds(m, order) :: m[id] }

  function Recent(m: map<Id, Time>, now: Time): map<Id, Time> { map id | id in m && m[id] >= now - LOG_LIFE :: m[id] }

  function Confirmed(m: map<Id, Factor>, now: Time): map<Id, Factor> {
    map id | id in m && (m[id].verified || m[id].created >= now - PENDING_LIFE) :: m[id]
  }

  function Effect(env: Env, s: State, job: Job): State {
    match job
    case RemoveExpiredResets => s.(resets := Fresh(s.resets, env.now))
    case RemoveOldResets => s.(resets := Trimmed(s.resets, env.order(s.resets)))
    case RemoveOldLogins => s.(logins := Recent(s.logins, env.now))
    case RemovePendingFactors => s.(factors := Confirmed(s.factors, env.now))
    case RevokeExpired => s.(sessions := RevokeWhere(s.sessions, Some(env.now), None))
    case RevokeOld => s.(sessions := RevokeWhere(s.sessions, None, Some(env.now - SESSION_LIFE)))
  }

  /** The first `n` jobs, each of them applied or lost. */
  function AfterJobs(env: Env, s: State, w: seq<Write>, n: nat): State
    requires |w| == |JOBS| && n <= |JOBS|
  {
    if n == 0 then s
    else
      var s1 := AfterJobs(env, s, w, n - 1);
      if w[n - 1].Took() then Effect(env, s1, JOBS[n - 1]) else s1
  }

  function RunAll(env: Env, s: State, w: seq<Write>): State
    requires |w| == |JOBS|
  {
    AfterJobs(env, s, w, |JOBS|)
  }

  class Tables {
    var resets: map<Id, Reset>
    var logins: map<Id, Time>
    var factors: map<Id, Factor>
    var sessions: map<Id, Session>

    constructor (s: State)
      ensures View() == s
    {
      resets, logins, factors, sessions := s.resets, s.logins, s.factors, s.sessions;
    }

    function View(): State
      reads this
    {
      State(resets, logins, factors, sessions)
    }

    method RunJob(env: Env, job: Job, w: Write) returns (ok: bool)
      modifies this
      ensures View() == if w.Took() then Effect(env, old(View()), job) else old(View())
      ensures ok == w.Acked()
    {
      if w.Took() {
        match job
        case RemoveExpiredResets => resets := Fresh(resets, env.now);
        case RemoveOldResets => resets := Trimmed(resets, env.order(resets));
        case RemoveOldLogins => logins := Recent(logins, env.now);
        case RemovePendingFactors => factors := Confirmed(factors, env.now);
        case RevokeExpired => sessions := RevokeWhere(sessions, Some(env.now), None);
        case RevokeOld => sessions := RevokeWhere(sessions, None, Some(env.now - SESSION_LIFE));
      }
      return w.Acked();
    }

    /** Every job is run whatever happened to those before it; the result lists exactly the failed ones, in order. */
    method RunMaintenance(env: Env, w: seq<Write>) returns (failed: seq<Job>)
      requires |w| == |JOBS|
      modifies this
      ensures View() == RunAll(env, old(View()), w)
      ensures forall j | 0 <= j < |JOBS| :: JOBS[j] in failed <==> !w[j].Acked()
      ensures InOrder(failed)
    {
      failed := [];
      for i := 0 to |JOBS|
        invariant View() == AfterJobs(env, old(View()), w, i)
        invariant forall j | 0 <= j < i :: JOBS[j] in failed <==> !w[j].Acked()
        invariant forall x | x in failed :: Position(x) < i
        invariant InOrder(failed)
      {
        var ok := RunJob(env, JOBS[i], w[i]);
        assert Position(JOBS[i]) == i;
        assert forall j | 0 <= j < i :: Position(JOBS[j]) == j;
        if !ok { failed := failed + [JOBS[i]]; }
      }
    }
  }

  function Position(job: Job): nat {
    match job
    case RemoveExpiredResets => 0 case RemoveOldResets => 1 case RemoveOldLogins => 2
    case RemovePendingFactors => 3 case RevokeExpired => 4 case RevokeOld => 5
  }

  ghost predicate InOrder(jobs: seq<Job>) { forall i, j | 0 <= i < j < |jobs| :: Position(jobs[i]) < Position(jobs[j]) }

  // ----- the window function -----

  lemma AmongGrows(m: map<Id, Reset>, order: seq<Id>, i: nat, j: nat, u: Id)
    requires i <= j <= |order|
    ensures Among(m, order, i, u) <= Among(m, order, j, u) && |Among(m, order, i, u)| <= |Among(m, order, j, u)|
  {
    assert order[..i] <= order[..j];
    SmallerSet(Among(m, order, i, u), Among(m, order, j, u));
  }

  lemma {:induction false} SmallerSet(a: set<Id>, b: set<Id>)
    requires a <= b
    ensures |a| <= |b|
  {
    if a != {} {
      var x :| x in a;
      SmallerSet(a - {x}, b - {x});
    }
  }

  /** The user's kept rows among the first `n` of the order. */
  function KeptAmong(m: map<Id, Reset>, order: seq<Id>, n: nat, u: Id): set<Id>
    requires n <= |order|
  {
    if n == 0 then {}
    else KeptAmong(m, order, n - 1, u) + if order[n - 1] in m && m[order[n - 1]].user == u && Kept(m, order, n - 1) then {order[n - 1]} else {}
  }

  function Least(a: nat, b: nat): nat { if a < b then a else b }

  lemma AmongStep(m: map<Id, Reset>, order: seq<Id>, n: nat, u: Id)
    requires 0 < n <= |order| && NoRepeats(order)
    ensures
      var x := order[n - 1];
      && x !in Among(m, order, n - 1, u)
      && Among(m, order, n, u) == if x in m && m[x].user == u then Among(m, order, n - 1, u) + {x} else Among(m, order, n - 1, u)
  {
    assert order[..n] == order[..n - 1] + [order[n - 1]];
  }

  lemma KeptStep(m: map<Id, Reset>, order: seq<Id>, n: nat, u: Id)
    requires 0 < n <= |order|
    ensures
      var x := order[n - 1];
      var mine := x in m && m[x].user == u;
      KeptAmong(m, order, n, u) ==
      if mine && |Among(m, order, n - 1, u)| < KEEP then KeptAmong(m, order, n - 1, u) + {x} else KeptAmong(m, order, n - 1, u)
  {
    var x := order[n - 1];
    if x in m && m[x].user == u {
      assert Kept(m, order, n - 1) <==> |Among(m, order, n - 1, u)| < KEEP;
    }
  }

  lemma KeptCountStep(m: map<Id, Reset>, order: seq<Id>, n: nat, u: Id)
    requires 0 < n <= |order| && NoRepeats(order)
    requires KeptAmong(m, order, n - 1, u) <= Among(m, order, n - 1, u)
    requires |KeptAmong(m, order, n - 1, u)| == Least(KEEP, |Among(m, order, n - 1, u)|)
    ensures KeptAmong(m, order, n, u) <= Among(m, order, n, u)
    ensures |KeptAmong(m, order, n, u)| == Least(KEEP, |Among(m, order, n, u)|)
  {
    AmongStep(m, order, n, u);
    KeptStep(m, order, n, u);
    var x := order[n - 1];
    CountStep(Among(m, order, n - 1, u), Among(m, order, n, u), KeptAmong(m, order, n - 1, u), KeptAmong(m, order, n, u), x,
              x in m && m[x].user == u);
  }

  lemma {:induction false} KeptCount(m: map<Id, Reset>, order: seq<Id>, n: nat, u: Id)
    requires n <= |order| && NoRepeats(order)
    ensures KeptAmong(m, order, n, u) <= Among(m, order, n, u)
    ensures |KeptAmong(m, order, n, u)| == Least(KEEP, |Among(m, order, n, u)|)
  {
    if n == 0 {
      assert Among(m, order, 0, u) == {} && KeptAmong(m, order, 0, u) == {};
    } else {
      KeptCount(m, order, n - 1, u);
      KeptCountStep(m, order, n, u);
    }
  }

  lemma CountStep(a: set<Id>, a': set<Id>, k: set<Id>, k': set<Id>, x: Id, mine: bool)
    requires x !in a && k <= a && |k| == Least(KEEP, |a|)
    requires a' == if mine then a + {x} else a
    requires k' == if mine && |a| < KEEP then k + {x} else k
    ensures k' <= a' && |k'| == Least(KEEP, |a'|)
  {
  }

  lemma {:induction false} KeptMember(m: map<Id, Reset>, order: seq<Id>, n: nat, u: Id, id: Id)
    requires n <= |order|
    ensures id in KeptAmong(m, order, n, u) <==> exists i :: 0 <= i < n && order[i] == id && Kept(m, order, i) && m[id].user == u
  {
    if n > 0 { KeptMember(m, order, n - 1, u, id); }
  }

  lemma KeptOfUser(m: map<Id, Reset>, order: seq<Id>, u: Id)
    requires Sorted(m, order)
    ensures OfUser(m, u) == Among(m, order, |order|, u)
    ensures OfUser(Trimmed(m, order), u) == KeptAmong(m, order, |order|, u)
  {
    assert order[..|order|] == order;
    forall id ensures id in OfUser(Trimmed(m, order), u) <==> id in KeptAmong(m, order, |order|, u) {
      KeptMember(m, order, |order|, u, id);
    }
  }

  lemma RemovedIsOlder(m: map<Id, Reset>, order: seq<Id>, x: Id, y: Id)
    requires Sorted(m, order) && x in KeptIds(m, order) && y in m && y !in KeptIds(m, order) && m[x].user == m[y].user
    ensures m[x].created >= m[y].created
  {
    var i :| 0 <= i < |order| && Kept(m, order, i) && order[i] == x;
    assert y in order;
    var j :| 0 <= j < |order| && order[j] == y;
    EarlierIsKept(m, order, i, j);
  }

  /** A row listed before a kept one of the same user is kept. */
  lemma EarlierIsKept(m: map<Id, Reset>, order: seq<Id>, i: nat, j: nat)
    requires i < |order| && j < |order| && Kept(m, order, i) && order[j] in m && m[order[i]].user == m[order[j]].user
    ensures j <= i ==> Kept(m, order, j)
  {
    if j <= i { AmongGrows(m, order, j, i, m[order[i]].user); }
  }

  /** The job keeps five rows per user, or all if there are no more, and none of the removed ones is newer than a kept one. */
  lemma OldResetsRemoved(env: Env, s: State, u: Id)
    requires Sorted(s.resets, env.order(s.resets))
    ensures
      var s' := Effect(env, s, RemoveOldResets);
      && OfUser(s'.resets, u) <= OfUser(s.resets, u)
      && |OfUser(s'.resets, u)| == Least(KEEP, |OfUser(s.resets, u)|)
      && forall x, y | x in OfUser(s'.resets, u) && y in OfUser(s.resets, u) && y !in s'.resets ::
           s.resets[x].created >= s.resets[y].created
  {
    var m, order := s.resets, env.order(s.resets);
    KeptCount(m, order, |order|, u);
    KeptOfUser(m, order, u);
    forall x, y | x in OfUser(Trimmed(m, order), u) && y in OfUser(m, u) && y !in Trimmed(m, order) ensures m[x].created >= m[y].created {
      RemovedIsOlder(m, order, x, y);
    }
  }

  // ----- whole runs -----

  /** Each job touches one store. */
  lemma Untouched(env: Env, s: State, w: seq<Write>, n: nat)
    requires |w| == |JOBS| && 0 < n <= |JOBS|
    ensures
      var before, after := AfterJobs(env, s, w, n - 1), AfterJobs(env, s, w, n);
      && (n > 2 ==> after.resets == before.resets)
      && (n != 3 ==> after.logins == before.logins)
      && (n != 4 ==> after.factors == before.factors)
      && (n < 5 ==> after.sessions == before.sessions)
  {
  }

  lemma OthersUntouched(env: Env, s: State, w: seq<Write>)
    requires |w| == |JOBS|
    ensures
      && RunAll(env, s, w).resets == AfterJobs(env, s, w, 2).resets
      && AfterJobs(env, s, w, 2).logins == s.logins
      && RunAll(env, s, w).logins == AfterJobs(env, s, w, 3).logins
      && AfterJobs(env, s, w, 3).factors == s.factors
      && RunAll(env, s, w).factors == AfterJobs(env, s, w, 4).factors
      && AfterJobs(env, s, w, 4).sessions == s.sessions
  {
    assert AfterJobs(env, s, w, 0) == s;
    Untouched(env, s, w, 1);
    Untouched(env, s, w, 2);
    Untouched(env, s, w, 3);
    Untouched(env, s, w, 4);
    Untouched(env, s, w, 5);
    Untouched(env, s, w, 6);
  }

  lemma LogsAndFactorsAfter(env: Env, s: State, w: seq<Write>)
    requires |w| == |JOBS|
    ensures RunAll(env, s, w).logins == if w[2].Took() then Recent(s.logins, env.now) else s.logins
    ensures RunAll(env, s, w).factors == if w[3].Took() then Confirmed(s.factors, env.now) else s.factors
  {
    OthersUntouched(env, s, w);
  }

  lemma RevokeTwice(m: map<Id, Session>, a: Option<Time>, b: Option<Time>)
    ensures RevokeWhere(RevokeWhere(m, a, None), None, b) == RevokeWhere(m, a, b)
    ensures RevokeWhere(m, None, None) == m
  {
  }

  lemma SessionsAfter(env: Env, s: State, w: seq<Write>)
    requires |w| == |JOBS|
    ensures
      RunAll(env, s, w).sessions ==
      RevokeWhere(s.sessions, if w[4].Took() then Some(env.now) else None, if w[5].Took() then Some(env.now - SESSION_LIFE) else None)
  {
    var a := if w[4].Took() then Some(env.now) else None;
    var b := if w[5].Took() then Some(env.now - SESSION_LIFE) else None;
    OthersUntouched(env, s, w);
    RevokeTwice(s.sessions, a, b);
    var s5 := AfterJobs(env, s, w, 5);
    assert s5.sessions == RevokeWhere(s.sessions, a, None);
    RevokeTwice(s5.sessions, None, None);
  }

  /**
   * Whatever fails, a session row is revoked at the end exactly if it was
   * before, or it has expired and that job took effect, or it is over thirty
   * days old and that job took effect; nothing else of it changes. In
   * particular an unexpired session under thirty days old is untouched.
   */
  lemma SessionRevokedIff(env: Env, s: State, w: seq<Write>, id: Id)
    requires |w| == |JOBS| && id in s.sessions
    ensures
      var s', r := RunAll(env, s, w), s.sessions[id];
      && s'.sessions.Keys == s.sessions.Keys
      && s'.sessions[id] == r.(revoked := r.revoked || (w[4].Took() && r.expires < env.now) || (w[5].Took() && r.created < env.now - SESSION_LIFE))
      && (r.expires >= env.now && r.created >= env.now - SESSION_LIFE ==> s'.sessions[id] == r)
  {
    SessionsAfter(env, s, w);
  }

  /** The rows the first job leaves. */
  function Surviving(env: Env, m: map<Id, Reset>, w: Write): map<Id, Reset> {
    map id | id in m && !(w.Took() && Stale(m[id], env.now)) :: m[id]
  }

  lemma ResetsAfterTwo(env: Env, s: State, w: seq<Write>)
    requires |w| == |JOBS|
    ensures
      var s1 := s.(resets := Surviving(env, s.resets, w[0]));
      RunAll(env, s, w).resets == if w[1].Took() then Effect(env, s1, RemoveOldResets).resets else s1.resets
  {
    OthersUntouched(env, s, w);
    assert AfterJobs(env, s, w, 0) == s;
    assert AfterJobs(env, s, w, 1).resets == Surviving(env, s.resets, w[0]);
  }

  /**
   * Password resets after a run in which the trimming job took effect: each user
   * keeps exactly five, or all that survived the first job if fewer — the used
   * and unexpired ones if it took effect too — and no removed survivor is newer than a kept row.
   */
  lemma ResetsKept(env: Env, s: State, w: seq<Write>, u: Id)
    requires |w| == |JOBS| && SortedEnv(env) && w[1].Took()
    ensures
      var s', m := RunAll(env, s, w), Surviving(env, s.resets, w[0]);
      && OfUser(s'.resets, u) <= OfUser(m, u)
      && |OfUser(s'.resets, u)| == Least(KEEP, |OfUser(m, u)|)
      && forall x, y | x in OfUser(s'.resets, u) && y in OfUser(m, u) && y !in s'.resets :: m[x].created >= m[y].created
  {
    var s1 := s.(resets := Surviving(env, s.resets, w[0]));
    ResetsAfterTwo(env, s, w);
    assert Sorted(s1.resets, env.order(s1.resets));
    OldResetsRemoved(env, s1, u);
  }

  /** Which reset rows a run without failures can keep: the used ones and those not past their expiry, and of a user with at most five of them all. */
  lemma ResetSurvives(env: Env, s: State, w: seq<Write>, id: Id)
    requires |w| == |JOBS| && SortedEnv(env) && (forall x | x in w :: x.Took()) && id in s.resets
    ensures
      var s', r := RunAll(env, s, w), s.resets[id];
      && (id in s'.resets ==> s'.resets[id] == r && (r.used || r.expires >= env.now))
      && ((r.used || r.expires >= env.now) && |OfUser(s.resets, r.user)| <= 5 ==> id in s'.resets)
  {
    assert w[0] in w && w[1] in w;
    var m, u := Surviving(env, s.resets, w[0]), s.resets[id].user;
    ResetsAfterTwo(env, s, w);
    ResetsKept(env, s, w, u);
    if id in m && |OfUser(s.resets, u)| <= 5 {
      SmallerSet(OfUser(m, u), OfUser(s.resets, u));
      SameSizeSubset(OfUser(RunAll(env, s, w).resets, u), OfUser(m, u));
      assert id in OfUser(m, u);
    }
  }

  /** Login logs are kept ninety days; a factor is kept if it was confirmed or is at most two hours old. Each only if its own job took effect. */
  lemma LogAndFactorSurvive(env: Env, s: State, w: seq<Write>, id: Id)
    requires |w| == |JOBS|
    ensures
      var s' := RunAll(env, s, w);
      && (id in s'.logins <==> id in s.logins && (w[2].Lost? || s.logins[id] >= env.now - 90 * 86400))
      && (id in s'.logins ==> s'.logins[id] == s.logins[id])
      && (id in s'.factors <==> id in s.factors && (w[3].Lost? || s.factors[id].verified || s.factors[id].created >= env.now - 2 * 3600))
      && (id in s'.factors ==> s'.factors[id] == s.factors[id])
  {
    LogsAndFactorsAfter(env, s, w);
  }

  // ----- a second run at the same instant -----

  predicate AllTook(w: seq<Write>) { forall x | x in w :: x.Took() }

  lemma {:induction false} SameSizeSubset(a: set<Id>, b: set<Id>)
    requires a <= b && |a| == |b|
    ensures a == b
  {
    if a != {} {
      var x :| x in a;
      SameSizeSubset(a - {x}, b - {x});
    }
  }

  /** With at most five rows per user the trimming job keeps them all, in whatever order it lists them. */
  lemma FewResetsStay(env: Env, s: State)
    requires Sorted(s.resets, env.order(s.resets)) && forall u :: |OfUser(s.resets, u)| <= KEEP
    ensures Effect(env, s, RemoveOldResets).resets == s.resets
  {
    var s' := Effect(env, s, RemoveOldResets);
    forall id | id in s.resets ensures id in s'.resets {
      var u := s.resets[id].user;
      OldResetsRemoved(env, s, u);
      SameSizeSubset(OfUser(s'.resets, u), OfUser(s.resets, u));
      assert id in OfUser(s.resets, u);
    }
  }

  lemma SecondRunKeepsResets(env: Env, env': Env, s: State, w: seq<Write>, w': seq<Write>)
    requires |w| == |w'| == |JOBS| && AllTook(w) && SortedEnv(env) && SortedEnv(env') && env'.now == env.now
    ensures RunAll(env', RunAll(env, s, w), w').resets == RunAll(env, s, w).resets
  {
    var s1 := RunAll(env, s, w);
    assert w[0] in w && w[1] in w;
    ResetsAfterTwo(env, s, w);
    ResetsAfterTwo(env', s1, w');
    assert Surviving(env', s1.resets, w'[0]) == s1.resets;
    forall u ensures |OfUser(s1.resets, u)| <= KEEP { ResetsKept(env, s, w, u); }
    assert Sorted(s1.resets, env'.order(s1.resets));
    FewResetsStay(env', s1);
  }

  /** After a run in which every job took effect, a second run at the same instant changes nothing, even if it breaks ties otherwise or partly fails. */
  lemma SecondRunChangesNothing(env: Env, env': Env, s: State, w: seq<Write>, w': seq<Write>)
    requires |w| == |w'| == |JOBS| && AllTook(w) && SortedEnv(env) && SortedEnv(env') && env'.now == env.now
    ensures RunAll(env', RunAll(env, s, w), w') == RunAll(env, s, w)
  {
    var s1 := RunAll(env, s, w);
    assert w[2] in w && w[3] in w && w[4] in w && w[5] in w;
    SecondRunKeepsResets(env, env', s, w, w');
    LogsAndFactorsAfter(env, s, w);
    LogsAndFactorsAfter(env', s1, w');
    SessionsAfter(env, s, w);
    SessionsAfter(env', s1, w');
    assert RunAll(env', s1, w').logins == s1.logins;
    assert RunAll(env', s1, w').factors == s1.factors;
    assert RunAll(env', s1, w').sessions == s1.sessions;
  }
}
