/**
 * One-time codes kept in Redis: the signup code of one email and the MFA code
 * of one (user, purpose). Sending is throttled by a cooldown, guessing by an
 * attempt counter that is written back with a renewed time to live.
 */
module OneTimeCode {
  import opened Base
  import opened Counting

  const COOLDOWN: Time := 60
  const MAX_ATTEMPTS: nat := 5
  const OTP_TTL: nat := 600

  type Code = string

  datatype Meta = Meta(code: Code, createdAt: Time, expiresAt: Time, attempts: nat, maxAttempts: nat)

  /** The Redis value and the instant at which the key vanishes. */
  datatype Slot = Empty | Stored(meta: Meta, keyExp: Time)

  predicate Live(s: Slot, now: Time) { s.Stored? && now < s.keyExp }

  // ----- the two operations -----

  predicate TooSoon(s: Slot, now: Time) { Live(s, now) && now - s.meta.createdAt < COOLDOWN }

  function Send(s: Slot, now: Time, ttl: nat, code: Code): Slot {
    if TooSoon(s, now) then s else Stored(Meta(code, now, now + ttl, 0, MAX_ATTEMPTS), now + ttl)
  }

  datatype Verdict = NoCode | CodeExpired | TooManyAttempts | Wrong | Right

  function Check(s: Slot, now: Time, code: Code): Verdict {
    if !Live(s, now) then NoCode
    else if now > s.meta.expiresAt then CodeExpired
    else if s.meta.attempts >= s.meta.maxAttempts then TooManyAttempts
    else if code != s.meta.code then Wrong
    else Right
  }

  /** A wrong guess is counted and the key renewed; a right one deletes the key, except while an enrolment is still to be completed. */
  function Guess(s: Slot, now: Time, ttl: nat, code: Code, deletes: bool): Slot {
    match Check(s, now, code)
    case Wrong => Stored(s.meta.(attempts := s.meta.attempts + 1), now + ttl)
    case Right => if deletes then Empty else s
    case _ => s
  }

  class CodeStore {
    var slot: Slot

    constructor ()
      ensures slot == Empty
    {
      slot := Empty;
    }

    method SendCode(now: Time, ttl: nat, code: Code) returns (sent: bool)
      modifies this
      ensures slot == Send(old(slot), now, ttl, code)
      ensures sent <==> !TooSoon(old(slot), now)
    {
      if slot.Stored? && now < slot.keyExp {
        if now - slot.meta.createdAt < COOLDOWN { return false; }
      }
      slot := Stored(Meta(code, now, now + ttl, 0, MAX_ATTEMPTS), now + ttl);
      return true;
    }

    method VerifyCode(now: Time, ttl: nat, code: Code, deletes: bool) returns (v: Verdict)
      modifies this
      ensures slot == Guess(old(slot), now, ttl, code, deletes)
      ensures v == Check(old(slot), now, code)
    {
      if slot.Empty? || now >= slot.keyExp { return NoCode; }
      var meta := slot.meta;
      if now > meta.expiresAt { return CodeExpired; }
      if meta.attempts >= meta.maxAttempts { return TooManyAttempts; }
      if code != meta.code {
        meta := meta.(attempts := meta.attempts + 1);
        slot := Stored(meta, now + ttl);
        return Wrong;
      }
      if deletes { slot := Empty; }
      return Right;
    }
  }

  // ----- histories -----

  datatype Event = DoSend(at: Time, code: Code) | DoGuess(at: Time, code: Code, deletes: bool)

  function Step(s: Slot, ttl: nat, e: Event): Slot {
    match e
    case DoSend(at, c) => Send(s, at, ttl, c)
    case DoGuess(at, c, d) => Guess(s, at, ttl, c, d)
  }

  function Run(ttl: nat, h: seq<Event>): Slot {
    if h == [] then Empty else Step(Run(ttl, h[..|h| - 1]), ttl, h[|h| - 1])
  }

  predicate IsSent(s: Slot, e: Event) { e.DoSend? && !TooSoon(s, e.at) }

  predicate IsWrong(s: Slot, e: Event) { e.DoGuess? && Check(s, e.at, e.code).Wrong? }

  predicate IsRight(s: Slot, e: Event) { e.DoGuess? && Check(s, e.at, e.code).Right? }

  /** Number of guesses compared with a stored code and found wrong. */
  function Compared(ttl: nat, h: seq<Event>): nat {
    if h == [] then 0
    else Compared(ttl, h[..|h| - 1]) + if IsWrong(Run(ttl, h[..|h| - 1]), h[|h| - 1]) then 1 else 0
  }

  function CodesSent(ttl: nat, h: seq<Event>): nat {
    if h == [] then 0
    else CodesSent(ttl, h[..|h| - 1]) + if IsSent(Run(ttl, h[..|h| - 1]), h[|h| - 1]) then 1 else 0
  }

  ghost predicate Succeeds(ttl: nat, h: seq<Event>) {
    h != [] && (IsRight(Run(ttl, h[..|h| - 1]), h[|h| - 1]) || Succeeds(ttl, h[..|h| - 1]))
  }

  ghost predicate Within(h: seq<Event>, t0: Time, span: nat) {
    && (forall i | 0 <= i < |h| :: t0 <= h[i].at <= t0 + span)
    && (forall i, j | 0 <= i < j < |h| :: h[i].at <= h[j].at)
  }

  /** The least time between two codes: the cooldown, or the life of the key if that is shorter. */
  function Gap(ttl: nat): nat { if ttl < COOLDOWN then ttl else COOLDOWN }

  /** Codes are at least a gap apart, and all guesses but those of the current code belong to earlier ones. `last` is the present. */
  ghost predicate Spaced(s: Slot, sent: nat, compared: nat, ttl: nat, t0: Time, last: Time) {
    if sent == 0 then s == Empty && compared == 0
    else
      && s.Stored? && s.meta.createdAt + ttl == s.meta.expiresAt <= s.keyExp
      && s.meta.maxAttempts == MAX_ATTEMPTS && s.meta.attempts <= MAX_ATTEMPTS
      && compared <= MAX_ATTEMPTS * (sent - 1) + s.meta.attempts
      && t0 + Times(sent - 1, Gap(ttl)) <= s.meta.createdAt <= last
  }

  lemma StepKeepsSpaced(s: Slot, e: Event, sent: nat, compared: nat, ttl: nat, t0: Time, last: Time)
    requires ttl >= 1 && t0 <= last <= e.at && Spaced(s, sent, compared, ttl, t0, last) && !IsRight(s, e)
    ensures Spaced(Step(s, ttl, e), sent + (if IsSent(s, e) then 1 else 0), compared + (if IsWrong(s, e) then 1 else 0), ttl, t0, e.at)
  {
    assert sent >= 1 ==> Times(sent, Gap(ttl)) == Times(sent - 1, Gap(ttl)) + Gap(ttl);
  }

  lemma {:induction false} CodesAreSpaced(ttl: nat, h: seq<Event>, t0: Time, span: nat)
    requires ttl >= 1 && Within(h, t0, span) && !Succeeds(ttl, h)
    ensures Spaced(Run(ttl, h), CodesSent(ttl, h), Compared(ttl, h), ttl, t0, if h == [] then t0 else h[|h| - 1].at)
  {
    if h != [] {
      var front, e := h[..|h| - 1], h[|h| - 1];
      CodesAreSpaced(ttl, front, t0, span);
      StepKeepsSpaced(Run(ttl, front), e, CodesSent(ttl, front), Compared(ttl, front), ttl, t0,
                      if front == [] then t0 else front[|front| - 1].at);
    }
  }

  /** Guesses within `span` seconds of the first code, with none right, are at most 5 (floor(span / gap) + 1). */
  lemma GuessBound(ttl: nat, h: seq<Event>, t0: Time, span: nat)
    requires ttl >= 1 && Within(h, t0, span) && !Succeeds(ttl, h)
    ensures Compared(ttl, h) <= MAX_ATTEMPTS * (span / Gap(ttl) + 1)
  {
    CodesAreSpaced(ttl, h, t0, span);
    var sent := CodesSent(ttl, h);
    FloorIsGreatest(if sent == 0 then 0 else sent - 1, Gap(ttl), span);
  }

  /** With the configured lifetime: at most five guesses for each minute begun. */
  lemma ConfiguredBound(h: seq<Event>, t0: Time, span: nat)
    requires Within(h, t0, span) && !Succeeds(OTP_TTL, h)
    ensures Compared(OTP_TTL, h) <= 5 * (span / 60 + 1)
  {
    GuessBound(OTP_TTL, h, t0, span);
  }

  // ----- the bound is reached -----

  const RIGHT_CODE: Code := "000000"
  const WRONG_CODE: Code := "999999"

  /** The slot after a code sent at `t` and n wrong guesses at the same instant. */
  function AfterGuesses(ttl: nat, t: Time, n: nat): Slot {
    Stored(Meta(RIGHT_CODE, t, t + ttl, n, MAX_ATTEMPTS), t + ttl)
  }

  lemma OneMore(ttl: nat, h: seq<Event>, e: Event, t0: Time, span: nat)
    requires Within(h, t0, span) && e.at == t0 + span && !Succeeds(ttl, h) && !IsRight(Run(ttl, h), e)
    ensures
      var h' := h + [e];
      && Within(h', t0, span) && !Succeeds(ttl, h') && Run(ttl, h') == Step(Run(ttl, h), ttl, e)
      && Compared(ttl, h') == Compared(ttl, h) + (if IsWrong(Run(ttl, h), e) then 1 else 0)
  {
    assert (h + [e])[..|h + [e]| - 1] == h;
  }

  lemma {:induction false} GuessAtOnce(ttl: nat, h: seq<Event>, t0: Time, span: nat, n: nat) returns (h': seq<Event>)
    requires ttl >= 1 && n <= MAX_ATTEMPTS && Within(h, t0, span) && !Succeeds(ttl, h)
    requires Run(ttl, h) == AfterGuesses(ttl, t0 + span, 0)
    ensures Within(h', t0, span) && !Succeeds(ttl, h') && Run(ttl, h') == AfterGuesses(ttl, t0 + span, n)
    ensures Compared(ttl, h') == Compared(ttl, h) + n
  {
    h' := h;
    if n > 0 {
      h' := GuessAtOnce(ttl, h, t0, span, n - 1);
      OneMore(ttl, h', DoGuess(t0 + span, WRONG_CODE, true), t0, span);
      h' := h' + [DoGuess(t0 + span, WRONG_CODE, true)];
    }
  }

  lemma WithinLonger(h: seq<Event>, t0: Time, a: nat, b: nat)
    requires Within(h, t0, a) && a <= b
    ensures Within(h, t0, b)
  {
  }

  /** One round: a code is sent at t0 + span, which the slot allows, and five wrong guesses follow at once. */
  lemma OneRound(ttl: nat, h: seq<Event>, t0: Time, span: nat) returns (h': seq<Event>)
    requires ttl >= 1 && Within(h, t0, span) && !Succeeds(ttl, h) && !TooSoon(Run(ttl, h), t0 + span)
    ensures Within(h', t0, span) && !Succeeds(ttl, h') && Run(ttl, h') == AfterGuesses(ttl, t0 + span, MAX_ATTEMPTS)
    ensures Compared(ttl, h') == Compared(ttl, h) + MAX_ATTEMPTS
  {
    var send := DoSend(t0 + span, RIGHT_CODE);
    OneMore(ttl, h, send, t0, span);
    h' := GuessAtOnce(ttl, h + [send], t0, span, MAX_ATTEMPTS);
  }

  /** A guesser who asks for a code whenever the gap allows it and spends all five guesses reaches the bound after every number of gaps. */
  lemma {:induction false} BoundIsReached(ttl: nat, k: nat, t0: Time) returns (h: seq<Event>)
    requires ttl >= 1
    ensures Times(k, Gap(ttl)) >= 0 && Within(h, t0, Times(k, Gap(ttl))) && !Succeeds(ttl, h)
    ensures Compared(ttl, h) == MAX_ATTEMPTS * (k + 1)
    ensures Run(ttl, h) == AfterGuesses(ttl, t0 + Times(k, Gap(ttl)), MAX_ATTEMPTS)
  {
    if k == 0 {
      h := OneRound(ttl, [], t0, 0);
    } else {
      h := BoundIsReached(ttl, k - 1, t0);
      var before, span := Times(k - 1, Gap(ttl)), Times(k, Gap(ttl));
      assert span == before + Gap(ttl);
      WithinLonger(h, t0, before, span);
      h := OneRound(ttl, h, t0, span);
    }
  }

  // ----- which codes are accepted -----

  /** What a reader of the history knows: the last code sent and not yet used up, its wrong guesses, and the last write. */
  datatype Ledger = Nothing | Pending(code: Code, sentAt: Time, wrong: nat, writtenAt: Time)

  /** The pending code can still be read back at `now`. */
  predicate Readable(l: Ledger, ttl: nat, now: Time) { l.Pending? && now < l.writtenAt + ttl }

  /** A guess at `now` is compared with the pending code. */
  predicate Open(l: Ledger, ttl: nat, now: Time) { Readable(l, ttl, now) && now <= l.sentAt + ttl && l.wrong < MAX_ATTEMPTS }

  /** The ledger is read off the events alone. */
  function LedgerOf(ttl: nat, h: seq<Event>): Ledger {
    if h == [] then Nothing
    else
      var l := LedgerOf(ttl, h[..|h| - 1]);
      match h[|h| - 1]
      case DoSend(at, code) =>
        if Readable(l, ttl, at) && at < l.sentAt + COOLDOWN then l else Pending(code, at, 0, at)
      case DoGuess(at, code, deletes) =>
        if !Open(l, ttl, at) then l
        else if code != l.code then l.(wrong := l.wrong + 1, writtenAt := at)
        else if deletes then Nothing
        else l
  }

  /** What Redis holds after any history is the ledger of its events. */
  lemma {:induction false} SlotIsLedger(ttl: nat, h: seq<Event>)
    ensures
      match LedgerOf(ttl, h)
      case Nothing => Run(ttl, h) == Empty
      case Pending(code, sentAt, wrong, writtenAt) =>
        Run(ttl, h) == Stored(Meta(code, sentAt, sentAt + ttl, wrong, MAX_ATTEMPTS), writtenAt + ttl)
  {
    if h != [] { SlotIsLedger(ttl, h[..|h| - 1]); }
  }

  /**
   * A code is accepted exactly if it is the last one sent and not used up, it
   * has had fewer than five wrong guesses, its Redis key is live, and no more
   * than `ttl` seconds have passed since it was sent: renewing the key on a
   * wrong guess does not prolong that.
   */
  lemma AcceptedIff(ttl: nat, h: seq<Event>, now: Time, code: Code)
    ensures Check(Run(ttl, h), now, code) == Right <==>
      var l := LedgerOf(ttl, h);
      l.Pending? && l.code == code && l.wrong < MAX_ATTEMPTS && now < l.writtenAt + ttl && now <= l.sentAt + ttl
  {
    SlotIsLedger(ttl, h);
  }

  /** The other answers, from the same ledger. */
  lemma RefusedIff(ttl: nat, h: seq<Event>, now: Time, code: Code)
    ensures
      var v, l := Check(Run(ttl, h), now, code), LedgerOf(ttl, h);
      && (v == NoCode <==> l.Nothing? || now >= l.writtenAt + ttl)
      && (v == CodeExpired <==> l.Pending? && now < l.writtenAt + ttl && now > l.sentAt + ttl)
      && (v == TooManyAttempts <==> l.Pending? && now < l.writtenAt + ttl && now <= l.sentAt + ttl && l.wrong >= MAX_ATTEMPTS)
      && (v == Wrong <==> l.Pending? && now < l.writtenAt + ttl && now <= l.sentAt + ttl && l.wrong < MAX_ATTEMPTS && code != l.code)
  {
    SlotIsLedger(ttl, h);
  }

  /** A new code is refused exactly while the last one is stored and less than a minute old. */
  lemma SendRefusedIff(ttl: nat, h: seq<Event>, now: Time)
    ensures
      var l := LedgerOf(ttl, h);
      TooSoon(Run(ttl, h), now) <==> l.Pending? && now < l.writtenAt + ttl && now < l.sentAt + 60
  {
    SlotIsLedger(ttl, h);
  }
}
