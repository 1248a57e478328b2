/** Time-based codes with anti-replay (section 5.2 of RFC 6238). Code generation itself is an uninterpreted function. */
module Totp {
  import opened Base

  const PERIOD: int := 30
  const SKEW: int := 1

  type Secret = nat
  type Code = string

  /** The code of a secret at a time step, or nothing if generation fails. */
  type Generator = (Secret, int) -> Option<Code>

  /** Integer division as Go does it, towards zero. */
  function TruncatedDiv(a: int, b: int): int
    requires b > 0
  {
    if a >= 0 then a / b else -((-a) / b)
  }

  function StepAt(now: Time): int { TruncatedDiv(now, PERIOD) }

  lemma StepIsMonotone(t0: Time, t1: Time)
    requires t0 <= t1
    ensures StepAt(t0) <= StepAt(t1)
  {
  }

  /** The step lies in the skew window, after the last one used, and its code is the one submitted. */
  predicate Matches(gen: Generator, secret: Secret, code: Code, last: int, now: Time, step: int) {
    StepAt(now) - SKEW <= step <= StepAt(now) + SKEW && step > last && gen(secret, step) == Some(code)
  }

  /** The step a submitted code is accepted for: the least that matches, none exactly if none matches. */
  function Accept(gen: Generator, secret: Secret, code: Code, last: int, now: Time): (r: Option<int>)
    ensures r.Some? ==> Matches(gen, secret, code, last, now, r.value)
    ensures r.Some? ==> forall step | Matches(gen, secret, code, last, now, step) :: r.value <= step
    ensures r.None? ==> forall step :: !Matches(gen, secret, code, last, now, step)
  {
    var current := StepAt(now);
    if Matches(gen, secret, code, last, now, current - 1) then Some(current - 1)
    else if Matches(gen, secret, code, last, now, current) then Some(current)
    else if Matches(gen, secret, code, last, now, current + 1) then Some(current + 1)
    else
      assert forall step :: Matches(gen, secret, code, last, now, step) ==> step == current - 1 || step == current || step == current + 1;
      None
  }

  /** The loop of `ValidateTOTPCode`. */
  method ValidateTOTPCode(gen: Generator, secret: Secret, code: Code, last: int, now: Time) returns (step: int, ok: bool)
    ensures ok ==> Accept(gen, secret, code, last, now) == Some(step)
    ensures !ok ==> Accept(gen, secret, code, last, now) == None && step == 0
  {
    var current := StepAt(now);
    var skew := -SKEW;
    while skew <= SKEW
      invariant -SKEW <= skew <= SKEW + 1
      invariant forall s | Matches(gen, secret, code, last, now, s) :: current + skew <= s
    {
      step := current + skew;
      if step > last {
        var candidate := gen(secret, step);
        if candidate.Some? && candidate.value == code {
          assert Matches(gen, secret, code, last, now, step);
          return step, true;
        }
      }
      skew := skew + 1;
    }
    return 0, false;
  }

  /** Step n is the n-th half minute. */
  lemma StepsAreHalfMinutes(now: Time, n: int)
    requires now >= 0
    ensures StepAt(now) == n <==> 30 * n <= now < 30 * n + 30
  {
  }

  /** A code is accepted at an instant exactly if its step, not used before, began at most a minute ago and begins within half a minute, and it is that secret's code. */
  lemma AcceptedIff(gen: Generator, secret: Secret, code: Code, last: int, now: Time)
    requires now >= 0
    ensures Accept(gen, secret, code, last, now).Some? <==>
      exists n: int :: n > last && gen(secret, n) == Some(code) && 30 * n - 30 <= now < 30 * n + 60
    ensures Accept(gen, secret, code, last, now).Some? ==>
      var n := Accept(gen, secret, code, last, now).value; n > last && gen(secret, n) == Some(code) && 30 * n - 30 <= now < 30 * n + 60
  {
    StepsAreHalfMinutes(now, StepAt(now));
    forall n: int ensures Matches(gen, secret, code, last, now, n) <==>
      n > last && gen(secret, n) == Some(code) && 30 * n - 30 <= now < 30 * n + 60
    {
    }
  }

  // ----- one secret over time -----

  datatype Submission = Submission(at: Time, code: Code)

  /** `last_used_step` after the submissions; a NULL column reads as 0. */
  function LastStep(gen: Generator, secret: Secret, last: int, h: seq<Submission>): int {
    if h == [] then last
    else
      var l := LastStep(gen, secret, last, h[..|h| - 1]);
      match Accept(gen, secret, h[|h| - 1].code, l, h[|h| - 1].at)
      case None => l
      case Some(step) => step
  }

  function AcceptedSteps(gen: Generator, secret: Secret, last: int, h: seq<Submission>): seq<int> {
    if h == [] then []
    else
      var front := h[..|h| - 1];
      match Accept(gen, secret, h[|h| - 1].code, LastStep(gen, secret, last, front), h[|h| - 1].at)
      case None => AcceptedSteps(gen, secret, last, front)
      case Some(step) => AcceptedSteps(gen, secret, last, front) + [step]
  }

  ghost predicate Increasing(s: seq<int>) { forall i, j | 0 <= i < j < |s| :: s[i] < s[j] }

  lemma {:induction false} IncreasingFitsRange(s: seq<int>, lo: int, hi: int)
    requires Increasing(s) && forall i | 0 <= i < |s| :: lo <= s[i] <= hi
    ensures s != [] ==> |s| <= s[|s| - 1] - lo + 1
    ensures s != [] ==> |s| <= hi - lo + 1
  {
    if |s| > 1 {
      IncreasingFitsRange(s[..|s| - 1], lo, hi);
      assert s[|s| - 2] < s[|s| - 1];
    }
  }

  /** Whatever is submitted in [t0, t1], in whatever order, accepted steps strictly increase and stay in the widened window. */
  lemma {:induction false} AcceptedStepsIncrease(gen: Generator, secret: Secret, last: int, h: seq<Submission>, t0: Time, t1: Time)
    requires forall i | 0 <= i < |h| :: t0 <= h[i].at <= t1
    ensures
      var a := AcceptedSteps(gen, secret, last, h);
      && Increasing(a) && (forall i | 0 <= i < |a| :: last < a[i] && StepAt(t0) - SKEW <= a[i] <= StepAt(t1) + SKEW)
      && LastStep(gen, secret, last, h) == if a == [] then last else a[|a| - 1]
  {
    if h != [] {
      var front := h[..|h| - 1];
      AcceptedStepsIncrease(gen, secret, last, front, t0, t1);
      StepIsMonotone(t0, h[|h| - 1].at);
      StepIsMonotone(h[|h| - 1].at, t1);
    }
  }

  /** One-time use: no step is accepted twice, and at most step(t1) - step(t0) + 3 codes are accepted between t0 and t1. */
  lemma AcceptedAtMost(gen: Generator, secret: Secret, last: int, h: seq<Submission>, t0: Time, t1: Time)
    requires t0 <= t1 && forall i | 0 <= i < |h| :: t0 <= h[i].at <= t1
    ensures Increasing(AcceptedSteps(gen, secret, last, h))
    ensures |AcceptedSteps(gen, secret, last, h)| <= StepAt(t1) - StepAt(t0) + 3
  {
    AcceptedStepsIncrease(gen, secret, last, h, t0, t1);
    StepIsMonotone(t0, t1);
    IncreasingFitsRange(AcceptedSteps(gen, secret, last, h), StepAt(t0) - SKEW, StepAt(t1) + SKEW);
  }

  // ----- the bound is reached -----

  /** The instant of [t0, t1] nearest to the start of a step. */
  function Nearest(step: int, t0: Time, t1: Time): Time {
    if step * PERIOD < t0 then t0 else if step * PERIOD > t1 then t1 else step * PERIOD
  }

  /** A device that submits the code of every step of the widened window in turn has each of them accepted. */
  lemma {:induction false} EveryStepAccepted(gen: Generator, secret: Secret, last: int, t0: Time, t1: Time, n: nat) returns (h: seq<Submission>)
    requires 0 <= t0 <= t1 && last < StepAt(t0) - SKEW && n <= StepAt(t1) - StepAt(t0) + 3
    requires forall x | StepAt(t0) - SKEW <= x <= StepAt(t1) + SKEW :: gen(secret, x).Some?
    ensures forall i | 0 <= i < |h| :: t0 <= h[i].at <= t1
    ensures |AcceptedSteps(gen, secret, last, h)| == n
    ensures LastStep(gen, secret, last, h) == if n == 0 then last else StepAt(t0) - SKEW + n - 1
  {
    h := [];
    if n > 0 {
      var front := EveryStepAccepted(gen, secret, last, t0, t1, n - 1);
      var step := StepAt(t0) - SKEW + n - 1;
      var at, code, l := Nearest(step, t0, t1), gen(secret, step).value, LastStep(gen, secret, last, front);
      assert StepAt(t0) - SKEW <= step <= StepAt(t1) + SKEW;
      assert StepAt(at) - SKEW <= step <= StepAt(at) + SKEW;
      assert Matches(gen, secret, code, l, at, step);
      h := front + [Submission(at, code)];
      assert h[..|h| - 1] == front;
    }
  }
}
