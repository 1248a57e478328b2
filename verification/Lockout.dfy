/** The failed-attempt counter and lock of one email identity, as driven by `Login`. */
module Lockout {
  import opened Base
  import opened Counting

  /** `LOGIN_MAX_FAILED_ATTEMPTS` and the lock duration in seconds. */
  datatype Policy = Policy(max: int, duration: int)

  datatype Identity = Identity(failed: nat, lockedAt: Option<Time>)

  const FRESH := Identity(0, None)

  /** One call of `Login`: when, whether the password is right, whether the account status allows logging in, whether it is marked deleted. */
  datatype Attempt = Attempt(at: Time, correct: bool, usable: bool, deleted: bool)

  /** A deleted account is answered like a wrong password, but nothing is verified or counted. */
  datatype Outcome = Deleted | AccountLocked | InvalidCredentials | AccountNotUsable | PasswordAccepted

  predicate Locked(p: Policy, id: Identity, now: Time) {
    id.lockedAt.Some? && now - id.lockedAt.value < p.duration
  }

  function Judge(p: Policy, id: Identity, a: Attempt): Outcome {
    if a.deleted then Deleted
    else if Locked(p, id, a.at) then AccountLocked
    else if !a.correct then InvalidCredentials
    else if !a.usable then AccountNotUsable
    else PasswordAccepted
  }

  /** Increment, then lock if the new count reaches the maximum; a failed increment skips both. */
  function Punish(p: Policy, id: Identity, now: Time): Identity {
    if id.failed >= INT4_MAX then id
    else Identity(id.failed + 1, if id.failed + 1 >= p.max then Some(now) else id.lockedAt)
  }

  function Login(p: Policy, id: Identity, a: Attempt): Identity {
    match Judge(p, id, a)
    case InvalidCredentials => Punish(p, id, a.at)
    case PasswordAccepted => FRESH
    case _ => id
  }

  /** The identity row, updated in place by `Login`. */
  class AuthIdentity {
    var failed: nat
    var lockedAt: Option<Time>

    constructor ()
      ensures View() == FRESH
    {
      failed, lockedAt := 0, None;
    }

    function View(): Identity
      reads this
    {
      Identity(failed, lockedAt)
    }

    method Attempt(p: Policy, a: Attempt) returns (o: Outcome)
      modifies this
      ensures View() == Login(p, old(View()), a)
      ensures o == Judge(p, old(View()), a)
    {
      if a.deleted { return Deleted; }
      if lockedAt.Some? && a.at - lockedAt.value < p.duration { return AccountLocked; }
      if !a.correct {
        if failed < INT4_MAX { // IncrementFailedLoginAttempts
          failed := failed + 1;
          if failed >= p.max { lockedAt := Some(a.at); } // LockAuthIdentity
        }
        return InvalidCredentials;
      }
      if !a.usable { return AccountNotUsable; }
      failed, lockedAt := 0, None; // ResetFailedLoginAttempts
      return PasswordAccepted;
    }
  }

  // ----- runs -----

  function Run(p: Policy, id: Identity, h: seq<Attempt>): Identity {
    if h == [] then id else Login(p, Run(p, id, h[..|h| - 1]), h[|h| - 1])
  }

  /** The outcome of the last attempt of a nonempty history. */
  function Last(p: Policy, id: Identity, h: seq<Attempt>): Outcome
    requires h != []
  {
    Judge(p, Run(p, id, h[..|h| - 1]), h[|h| - 1])
  }

  /** How many times a wrong password was actually verified. */
  function WrongGuesses(p: Policy, id: Identity, h: seq<Attempt>): nat {
    if h == [] then 0
    else WrongGuesses(p, id, h[..|h| - 1]) + if Last(p, id, h).InvalidCredentials? then 1 else 0
  }

  ghost predicate Resets(p: Policy, id: Identity, h: seq<Attempt>) {
    h != [] && (Last(p, id, h).PasswordAccepted? || Resets(p, id, h[..|h| - 1]))
  }

  /** Attempts in time order, all within [t0, t0 + span]. */
  ghost predicate Within(h: seq<Attempt>, t0: Time, span: nat) {
    && (forall i | 0 <= i < |h| :: t0 <= h[i].at <= t0 + span)
    && (forall i, j | 0 <= i < j < |h| :: h[i].at <= h[j].at)
  }

  function Max(a: int, b: int): int { if a < b then b else a }

  /** Attempts made during a lock change nothing, so they cannot extend it. */
  lemma LockedAttemptsDoNotExtend(p: Policy, id: Identity, a: Attempt)
    requires Locked(p, id, a.at)
    ensures Login(p, id, a) == id && Judge(p, id, a) == if a.deleted then Deleted else AccountLocked
  {
  }

  /** A whole lock: however many attempts fall into it, the row stays as it was, no password is verified, and the lock ends when it would have. */
  lemma {:induction false} LockIsNeverExtended(p: Policy, id: Identity, h: seq<Attempt>)
    requires id.lockedAt.Some? && forall i | 0 <= i < |h| :: h[i].at < id.lockedAt.value + p.duration
    ensures Run(p, id, h) == id && WrongGuesses(p, id, h) == 0 && !Resets(p, id, h)
    ensures forall now: Time :: Locked(p, Run(p, id, h), now) <==> now < id.lockedAt.value + p.duration
  {
    if h != [] {
      LockIsNeverExtended(p, id, h[..|h| - 1]);
      LockedAttemptsDoNotExtend(p, id, h[|h| - 1]);
    }
  }

  /** With k wrong guesses made, the counter is k higher, and from `free` guesses on each one is a lock duration after the one before. */
  lemma {:induction false} GuessesAreSpaced(p: Policy, id: Identity, h: seq<Attempt>, t0: Time, span: nat)
    requires p.duration >= 1 && Within(h, t0, span) && !Resets(p, id, h)
    requires id.failed + Max(p.max - id.failed, 1) + span / p.duration <= INT4_MAX
    ensures
      var k, free, cur := WrongGuesses(p, id, h), Max(p.max - id.failed, 1), Run(p, id, h);
      && cur.failed == id.failed + k
      && k <= free + span / p.duration
      && (k >= free ==> cur.lockedAt.Some? && t0 + Times(k - free, p.duration) <= cur.lockedAt.value <= t0 + span)
  {
    FloorIsGreatest(0, p.duration, span);
    if h != [] {
      var front, a := h[..|h| - 1], h[|h| - 1];
      GuessesAreSpaced(p, id, front, t0, span);
      var k, free := WrongGuesses(p, id, front), Max(p.max - id.failed, 1);
      if Last(p, id, h) == InvalidCredentials && k >= free {
        assert Times(k + 1 - free, p.duration) == Times(k - free, p.duration) + p.duration;
        FloorIsGreatest(k + 1 - free, p.duration, span);
      }
    }
  }

  /** From any state of the row, without a successful login, wrong guesses in `span` seconds are at most N + floor(span / D). */
  lemma GuessBound(p: Policy, id: Identity, h: seq<Attempt>, t0: Time, span: nat)
    requires p.max >= 1 && p.duration >= 1 && Within(h, t0, span) && !Resets(p, id, h)
    requires id.failed + Max(p.max - id.failed, 1) + span / p.duration <= INT4_MAX
    ensures WrongGuesses(p, id, h) <= p.max + span / p.duration
  {
    GuessesAreSpaced(p, id, h, t0, span);
  }

  // ----- the bound is sharp, and fails exactly when the counter can overflow -----

  /** How long the k-th guess has to wait after the first. */
  function Delay(p: Policy, k: nat): int { if k <= p.max then 0 else Times(k - p.max, p.duration) }

  function LockOf(p: Policy, k: nat, t0: Time): Option<Time> {
    if k >= 1 && k >= p.max then Some(t0 + Delay(p, k)) else None
  }

  lemma DelayGrows(p: Policy, k: nat)
    requires p.max >= 1 && p.duration >= 1
    ensures 0 <= Delay(p, k) <= Delay(p, k + 1)
    ensures k >= p.max ==> Delay(p, k + 1) == Delay(p, k) + p.duration
  {
    if k >= p.max {
      var n := k - p.max;
      TimesGrows(n, p.duration);
      assert Delay(p, k) == Times(n, p.duration) && Delay(p, k + 1) == Times(n + 1, p.duration);
    }
  }

  /** What one more wrong guess after history `h` adds. */
  lemma OneMoreGuess(p: Policy, h: seq<Attempt>, h': seq<Attempt>, t0: Time, t: Time)
    requires t0 <= t && Within(h, t0, t - t0) && !Resets(p, FRESH, h) && !Locked(p, Run(p, FRESH, h), t)
    requires h' == h + [Attempt(t, false, true, false)]
    ensures Within(h', t0, t - t0) && !Resets(p, FRESH, h')
    ensures WrongGuesses(p, FRESH, h') == WrongGuesses(p, FRESH, h) + 1
    ensures Run(p, FRESH, h') == Punish(p, Run(p, FRESH, h), t)
  {
    assert h'[..|h'| - 1] == h;
    assert Last(p, FRESH, h') == InvalidCredentials;
  }

  lemma NextGuessOnTime(p: Policy, k: nat, t0: Time)
    requires p.max >= 1 && p.duration >= 1 && k < INT4_MAX
    ensures !Locked(p, Identity(k, LockOf(p, k, t0)), t0 + Delay(p, k + 1))
    ensures Punish(p, Identity(k, LockOf(p, k, t0)), t0 + Delay(p, k + 1)) == Identity(k + 1, LockOf(p, k + 1, t0))
  {
    DelayGrows(p, k);
  }

  lemma WithinLonger(h: seq<Attempt>, t0: Time, a: nat, b: nat)
    requires Within(h, t0, a) && a <= b
    ensures Within(h, t0, b)
  {
  }

  /** A guesser who never waits longer than needed: k verified wrong guesses, the last as early as possible. */
  lemma {:induction false} FastestGuesser(p: Policy, k: nat, t0: Time) returns (h: seq<Attempt>)
    requires p.max >= 1 && p.duration >= 1 && k <= INT4_MAX
    ensures Delay(p, k) >= 0 && Within(h, t0, Delay(p, k)) && !Resets(p, FRESH, h)
    ensures WrongGuesses(p, FRESH, h) == k
    ensures Run(p, FRESH, h) == Identity(k, LockOf(p, k, t0))
  {
    if k == 0 {
      h := [];
    } else {
      var front := FastestGuesser(p, k - 1, t0);
      var t := t0 + Delay(p, k);
      h := front + [Attempt(t, false, true, false)];
      DelayGrows(p, k - 1);
      NextGuessOnTime(p, k - 1, t0);
      WithinLonger(front, t0, Delay(p, k - 1), Delay(p, k));
      OneMoreGuess(p, front, h, t0, t);
    }
  }

  /** Once the counter is full a failed increment never renews the lock: any number of further guesses at one instant. */
  lemma {:induction false} FullCounterNeverLocks(p: Policy, h: seq<Attempt>, t0: Time, span: nat, more: nat) returns (h': seq<Attempt>)
    requires Within(h, t0, span) && !Resets(p, FRESH, h)
    requires Run(p, FRESH, h).failed == INT4_MAX && !Locked(p, Run(p, FRESH, h), t0 + span)
    ensures Within(h', t0, span) && !Resets(p, FRESH, h')
    ensures WrongGuesses(p, FRESH, h') == WrongGuesses(p, FRESH, h) + more
    ensures Run(p, FRESH, h') == Run(p, FRESH, h)
  {
    h' := h;
    if more > 0 {
      h' := FullCounterNeverLocks(p, h, t0, span, more - 1);
      var front := h';
      h' := front + [Attempt(t0 + span, false, true, false)];
      OneMoreGuess(p, front, h', t0, t0 + span);
    }
  }

  ghost predicate Bounded(p: Policy, t0: Time, span: nat)
    requires p.duration >= 1
  {
    forall h | Within(h, t0, span) && !Resets(p, FRESH, h) :: WrongGuesses(p, FRESH, h) <= p.max + span / p.duration
  }

  /**
   * Every run of `Login` on one identity without a success verifies at most
   * N + floor(T / D) wrong passwords in T seconds, if and only if that number
   * fits the INTEGER column; below that, some run reaches it exactly.
   */
  lemma LockoutBoundIff(p: Policy, t0: Time, span: nat)
    requires p.max >= 1 && p.duration >= 1
    ensures Bounded(p, t0, span) <==> p.max + span / p.duration <= INT4_MAX
    ensures Bounded(p, t0, span) ==>
      exists h :: Within(h, t0, span) && !Resets(p, FRESH, h) && WrongGuesses(p, FRESH, h) == p.max + span / p.duration
  {
    var bound := p.max + span / p.duration;
    FloorIsGreatest(span / p.duration, p.duration, span);
    if bound <= INT4_MAX {
      forall h | Within(h, t0, span) && !Resets(p, FRESH, h) ensures WrongGuesses(p, FRESH, h) <= bound {
        GuessBound(p, FRESH, h, t0, span);
      }
      var h := FastestGuesser(p, bound, t0);
      assert Within(h, t0, span);
    } else {
      TooManyGuesses(p, t0, span);
    }
  }

  lemma TooManyGuesses(p: Policy, t0: Time, span: nat)
    requires p.max >= 1 && p.duration >= 1 && p.max + span / p.duration > INT4_MAX
    ensures !Bounded(p, t0, span)
  {
    var h := FastestGuesser(p, INT4_MAX, t0);
    DelayGrows(p, INT4_MAX);
    if p.max <= INT4_MAX {
      FloorIsGreatest(INT4_MAX + 1 - p.max, p.duration, span);
    }
    assert Within(h, t0, span);
    var h' := FullCounterNeverLocks(p, h, t0, span, p.max + span / p.duration);
    assert WrongGuesses(p, FRESH, h') > p.max + span / p.duration;
  }

  // ----- the row is a fold of the history -----

  /** Instants of the wrong guesses since the last accepted password. */
  function WrongTimes(p: Policy, h: seq<Attempt>): seq<Time> {
    if h == [] then []
    else
      var w := WrongTimes(p, h[..|h| - 1]);
      match Last(p, FRESH, h)
      case InvalidCredentials => w + [h[|h| - 1].at]
      case PasswordAccepted => []
      case _ => w
  }

  /** The counter is the number of wrong guesses since the last success, the lock the instant of the last counted one past the limit. */
  lemma {:induction false} RowIsFoldOfHistory(p: Policy, h: seq<Attempt>)
    ensures
      var w, row := WrongTimes(p, h), Run(p, FRESH, h);
      var counted := if |w| < INT4_MAX then |w| else INT4_MAX;
      && row.failed == counted
      && row.lockedAt == if counted >= 1 && counted >= p.max then Some(w[counted - 1]) else None
  {
    if h != [] { RowIsFoldOfHistory(p, h[..|h| - 1]); }
  }

  // ----- every answer, from the attempts alone -----

  /** What a reader of the attempts knows: the wrong passwords counted since the last success, and until when the account is locked. */
  datatype Ledger = Ledger(count: nat, until: Option<Time>)

  predicate LockedAt(l: Ledger, now: Time) { l.until.Some? && now < l.until.value }

  function LedgerOf(p: Policy, h: seq<Attempt>): Ledger {
    if h == [] then Ledger(0, None)
    else
      var l, a := LedgerOf(p, h[..|h| - 1]), h[|h| - 1];
      if a.deleted || LockedAt(l, a.at) then l
      else if a.correct then (if a.usable then Ledger(0, None) else l)
      else if l.count == INT4_MAX then l
      else Ledger(l.count + 1, if p.max <= l.count + 1 then Some(a.at + p.duration) else l.until)
  }

  /** The row after any history is the ledger of its attempts. */
  lemma {:induction false} RowIsLedger(p: Policy, h: seq<Attempt>)
    ensures
      var l, row := LedgerOf(p, h), Run(p, FRESH, h);
      && row.failed == l.count && l.count <= INT4_MAX
      && (row.lockedAt.Some? <==> l.until.Some?) && (l.until.Some? ==> l.until.value == row.lockedAt.value + p.duration)
  {
    if h != [] { RowIsLedger(p, h[..|h| - 1]); }
  }

  /** After every history, exactly when each answer is given. */
  lemma AnswerIff(p: Policy, h: seq<Attempt>, a: Attempt)
    ensures
      var o, locked := Judge(p, Run(p, FRESH, h), a), LockedAt(LedgerOf(p, h), a.at);
      && (o == PasswordAccepted <==> a.correct && a.usable && !a.deleted && !locked)
      && (o == AccountNotUsable <==> a.correct && !a.usable && !a.deleted && !locked)
      && (o == InvalidCredentials <==> !a.correct && !a.deleted && !locked)
      && (o == AccountLocked <==> locked && !a.deleted)
      && (o == Deleted <==> a.deleted)
  {
    RowIsLedger(p, h);
  }

  /** Only a success clears the counter and the lock, and it clears both; every other answer but a wrong password leaves the row alone. */
  lemma AttemptEffect(p: Policy, h: seq<Attempt>, a: Attempt)
    ensures
      var before, after, locked := Run(p, FRESH, h), Run(p, FRESH, h + [a]), LockedAt(LedgerOf(p, h), a.at);
      && (a.correct && a.usable && !a.deleted && !locked ==> after == Identity(0, None))
      && (a.deleted || locked || (a.correct && !a.usable) ==> after == before)
      && (!a.correct && !a.deleted && !locked && before.failed < INT4_MAX ==>
            after == Identity(before.failed + 1, if p.max <= before.failed + 1 then Some(a.at) else before.lockedAt))
  {
    assert (h + [a])[..|h|] == h;
    RowIsLedger(p, h);
  }
}
