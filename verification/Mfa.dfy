/**
 * Factors, recovery codes, login challenges and their consumption. Transactions
 * may fail at any statement, lookups may fail, issuing a challenge or a session
 * may fail; the writes that consume a credential succeed.
 */
module Mfa {
  import opened Base
  import Totp
  import OneTimeCode

  const CHALLENGE_TTL: Time := 300
  const OTP_TTL: nat := OneTimeCode.OTP_TTL

  type UserId = nat
  type Hash = nat

  datatype Kind = TotpKind | EmailKind

  datatype Key = Key(user: UserId, kind: Kind)

  /** A row of `mfa_factors`, unique per user and kind. */
  datatype Factor = Factor(id: nat, secret: Totp.Secret, verified: bool, enabled: bool, lastStep: Option<int>, created: Time)

  /** A row of `mfa_recovery_codes`; the table is indexed uniquely by code hash. */
  datatype Recovery = Recovery(factor: nat, id: nat, used: bool)

  /** An emailed login code with the identity of its sending. */
  datatype Emailed = Emailed(serial: nat, slot: OneTimeCode.Slot)

  datatype Challenge = Challenge(user: UserId, exp: Time)

  /** A one-time credential. */
  datatype Credential = TotpStep(secret: Totp.Secret, step: int) | EmailCode(serial: nat) | RecoveryCode(id: nat)

  datatype Event =
    | PasswordVerified(user: UserId)
    | ChallengeIssued(challenge: nat, user: UserId)
    | Consumed(credential: Credential, user: UserId, against: Option<nat>)
    | SessionByPassword(user: UserId)
    | SessionByChallenge(challenge: nat, user: UserId)

  /** What the calls take from outside: code generation, hashing of recovery codes, and the configured number of codes. */
  datatype Env = Env(gen: Totp.Generator, hash: string -> Hash, count: nat)

  datatype State = State(
    clock: Time,
    factors: map<Key, Factor>,
    recovery: map<Hash, Recovery>,
    emailed: map<UserId, Emailed>,
    challenges: map<nat, Challenge>,
    usable: set<UserId>,
    log: seq<Event>,
    next: nat)

  // ----- lookups -----

  predicate Enabled(s: State, u: UserId, k: Kind) { Key(u, k) in s.factors && s.factors[Key(u, k)].enabled }

  /** `listEnabledMFAMethods` fails if either lookup fails, whatever the other one says. */
  function EnabledMethods(s: State, u: UserId, totpOk: bool, emailOk: bool): Option<seq<Kind>> {
    if !totpOk || !emailOk then None
    else Some((if Enabled(s, u, TotpKind) then [TotpKind] else []) + (if Enabled(s, u, EmailKind) then [EmailKind] else []))
  }

  function LastStepOf(f: Factor): int { match f.lastStep case None => 0 case Some(n) => n }

  predicate LiveChallenge(s: State, c: nat) { c in s.challenges && s.clock < s.challenges[c].exp }

  // ----- the password step -----

  datatype LoginReply = Refused | LookupFailed | ChallengeFailed | MfaRequired(challenge: nat) | IssueFailed | LoggedIn

  /** The outcomes of the two lookups, of storing the challenge, and of issuing the session. */
  datatype LoginFaults = LoginFaults(totp: bool, email: bool, challenge: Write, issue: bool)

  function LoginVerdict(s: State, u: UserId, passwordOk: bool, f: LoginFaults): LoginReply {
    if !passwordOk || u !in s.usable then Refused
    else match EnabledMethods(s, u, f.totp, f.email)
      case None => LookupFailed
      case Some(ms) =>
        if ms == [] then (if f.issue then LoggedIn else IssueFailed)
        else if f.challenge.Acked() then MfaRequired(s.next)
        else ChallengeFailed
  }

  /** A login that found a factor: the challenge, if it was stored. */
  function Challenged(s: State, u: UserId, w: Write): State {
    if w.Took() then
      s.(challenges := s.challenges[s.next := Challenge(u, s.clock + CHALLENGE_TTL)], next := s.next + 1,
         log := s.log + [PasswordVerified(u), ChallengeIssued(s.next, u)])
    else s.(next := s.next + 1, log := s.log + [PasswordVerified(u)])
  }

  function Login(s: State, u: UserId, passwordOk: bool, f: LoginFaults): State {
    match LoginVerdict(s, u, passwordOk, f)
    case Refused => s
    case LookupFailed => s
    case LoggedIn => s.(log := s.log + [PasswordVerified(u), SessionByPassword(u)])
    case IssueFailed => s.(log := s.log + [PasswordVerified(u)])
    case ChallengeFailed => Challenged(s, u, f.challenge)
    case MfaRequired(_) => Challenged(s, u, f.challenge)
  }

  // ----- the second step -----

  /**
   * The reads of the second step that answered: the method listing, the TOTP
   * factor with its decryption, the email factor, the emailed code, the recovery
   * row, the account; and whether the session could be issued.
   */
  datatype VerifyFaults = VerifyFaults(
    methods: bool, totp: bool, email: bool, stored: bool, recovery: bool, account: bool, issue: bool)

  predicate Tries(s: State, u: UserId, requested: Option<Kind>, k: Kind) { (requested.None? || requested.value == k) && Enabled(s, u, k) }

  function TotpMatch(env: Env, s: State, u: UserId, requested: Option<Kind>, code: string): Option<int> {
    if Tries(s, u, requested, TotpKind) then
      var f := s.factors[Key(u, TotpKind)];
      Totp.Accept(env.gen, f.secret, code, LastStepOf(f), s.clock)
    else None
  }

  /** The attempt ends with an internal error at the lookup of a factor. */
  predicate Stops(env: Env, s: State, u: UserId, requested: Option<Kind>, code: string, f: VerifyFaults) {
    || (Tries(s, u, requested, TotpKind) && !f.totp)
    || (TotpMatch(env, s, u, requested, code).None? && Tries(s, u, requested, EmailKind) && !f.email)
  }

  predicate ChecksEmail(env: Env, s: State, u: UserId, requested: Option<Kind>, code: string, f: VerifyFaults) {
    && !Stops(env, s, u, requested, code, f) && TotpMatch(env, s, u, requested, code).None?
    && Tries(s, u, requested, EmailKind) && f.stored && u in s.emailed
  }

  /** Which credential of the account, if any, the submitted code is: TOTP first, then the emailed code, then a recovery code. */
  function Recognise(env: Env, s: State, u: UserId, requested: Option<Kind>, code: string, f: VerifyFaults): Option<Credential> {
    if Stops(env, s, u, requested, code, f) then None
    else if TotpMatch(env, s, u, requested, code).Some? then
      Some(TotpStep(s.factors[Key(u, TotpKind)].secret, TotpMatch(env, s, u, requested, code).value))
    else if ChecksEmail(env, s, u, requested, code, f) && OneTimeCode.Check(s.emailed[u].slot, s.clock, code).Right? then
      Some(EmailCode(s.emailed[u].serial))
    else if f.recovery && env.hash(code) in s.recovery && !s.recovery[env.hash(code)].used then
      Some(RecoveryCode(s.recovery[env.hash(code)].id))
    else None
  }

  /** The emailed codes after the attempt: deleted if right, one attempt higher if wrong. */
  function EmailedAfter(env: Env, s: State, u: UserId, requested: Option<Kind>, code: string, f: VerifyFaults): map<UserId, Emailed> {
    if !ChecksEmail(env, s, u, requested, code, f) then s.emailed
    else
      match OneTimeCode.Check(s.emailed[u].slot, s.clock, code)
      case Right => s.emailed - {u}
      case Wrong => s.emailed[u := s.emailed[u].(slot := OneTimeCode.Guess(s.emailed[u].slot, s.clock, OTP_TTL, code, true))]
      case _ => s.emailed
  }

  /** `ListingFailed`, `ReadFailed` and `AccountFailed` are answered as internal errors, `SessionFailed` as a failed token generation. */
  datatype VerifyReply =
    | InvalidChallenge | ListingFailed | NotEnabled | InvalidMethod | ReadFailed | InvalidCode
    | AccountFailed | NotUsable | SessionFailed | Verified
  {
    /** A credential is consumed. */
    predicate Consumes() { AccountFailed? || NotUsable? || SessionFailed? || Verified? }

    /** The submitted code is looked at. */
    predicate Proceeds() { Consumes() || ReadFailed? || InvalidCode? }

    /** The challenge is deleted. */
    predicate EndsChallenge() { SessionFailed? || Verified? }
  }

  function VerifyVerdict(env: Env, s: State, c: nat, requested: Option<Kind>, code: string, f: VerifyFaults): VerifyReply {
    if !LiveChallenge(s, c) then InvalidChallenge
    else
      var u := s.challenges[c].user;
      if !f.methods then ListingFailed
      else if !Enabled(s, u, TotpKind) && !Enabled(s, u, EmailKind) then NotEnabled
      else if requested.Some? && !Enabled(s, u, requested.value) then InvalidMethod
      else if Recognise(env, s, u, requested, code, f).None? then
        (if Stops(env, s, u, requested, code, f) || !f.recovery then ReadFailed else InvalidCode)
      else if !f.account then AccountFailed
      else if u !in s.usable then NotUsable
      else if !f.issue then SessionFailed
      else Verified
  }

  /** A TOTP step is recorded on the factor. */
  function FactorsAfter(s: State, u: UserId, cred: Option<Credential>): map<Key, Factor> {
    var k := Key(u, TotpKind);
    if cred.Some? && cred.value.TotpStep? && k in s.factors then
      s.factors[k := s.factors[k].(lastStep := Some(cred.value.step))]
    else s.factors
  }

  /** A recovery row is marked, never deleted. */
  function RecoveryAfter(s: State, h: Hash, cred: Option<Credential>): map<Hash, Recovery> {
    if cred.Some? && cred.value.RecoveryCode? && h in s.recovery then s.recovery[h := s.recovery[h].(used := true)]
    else s.recovery
  }

  function LogAfter(s: State, c: nat, u: UserId, cred: Option<Credential>, issued: bool): seq<Event> {
    match cred
    case None => s.log
    case Some(x) => if issued then s.log + [Consumed(x, u, Some(c)), SessionByChallenge(c, u)] else s.log + [Consumed(x, u, Some(c))]
  }

  /** `VerifyMFALogin`. The credential is consumed before the account is re-checked, the challenge only after. */
  function Verify(env: Env, s: State, c: nat, requested: Option<Kind>, code: string, f: VerifyFaults): State {
    var v := VerifyVerdict(env, s, c, requested, code, f);
    if !v.Proceeds() then s
    else
      var u := s.challenges[c].user;
      var cred := Recognise(env, s, u, requested, code, f);
      s.(factors := FactorsAfter(s, u, cred),
         recovery := RecoveryAfter(s, env.hash(code), cred),
         emailed := EmailedAfter(env, s, u, requested, code, f),
         challenges := if v.EndsChallenge() then s.challenges - {c} else s.challenges,
         log := LogAfter(s, c, u, cred, v.Verified?))
  }

  /** `SendMFALoginCode` for the email method. */
  function SendCode(s: State, c: nat, code: string): State {
    if !LiveChallenge(s, c) || !Enabled(s, s.challenges[c].user, EmailKind) then s
    else
      var u := s.challenges[c].user;
      var slot := if u in s.emailed then s.emailed[u].slot else OneTimeCode.Empty;
      if OneTimeCode.TooSoon(slot, s.clock) then s
      else s.(emailed := s.emailed[u := Emailed(s.next, OneTimeCode.Send(slot, s.clock, OTP_TTL, code))], next := s.next + 1)
  }

  // ----- enrolment -----

  /** Upsert of a pending factor: an existing row keeps its id, a new secret is stored, progress is cleared. */
  function Enroll(s: State, k: Key, w: Write): State {
    if k in s.factors && s.factors[k].enabled then s
    else if w.Took() then s.(factors := s.factors[k := Pending(s, k)], next := s.next + 2)
    else s.(next := s.next + 2)
  }

  function Pending(s: State, k: Key): Factor {
    Factor(if k in s.factors then s.factors[k].id else s.next, s.next + 1, false, false, None, s.clock)
  }

  function DeleteCodes(m: map<Hash, Recovery>, factor: nat): map<Hash, Recovery> {
    map h | h in m && m[h].factor != factor :: m[h]
  }

  /** Insert of the recovery rows in order; a hash already present violates the unique index. */
  function InsertCodes(m: map<Hash, Recovery>, factor: nat, hashes: seq<Hash>, id: nat): Option<map<Hash, Recovery>> {
    if hashes == [] then Some(m)
    else
      var n := |hashes| - 1;
      match InsertCodes(m, factor, hashes[..n], id)
      case None => None
      case Some(m1) => if hashes[n] in m1 then None else Some(m1[hashes[n] := Recovery(factor, id + n, false)])
  }

  /** `CompleteMFAEnrollment` and `CompleteOTPFactorEnrollment`: all of it in one transaction, or none. */
  function Complete(s: State, k: Key, step: Option<int>, hashes: seq<Hash>, tx: Tx): State
    requires k in s.factors
  {
    var f := s.factors[k];
    var codes := InsertCodes(DeleteCodes(s.recovery, f.id), f.id, hashes, s.next);
    var s' := s.(next := s.next + |hashes|);
    if !tx.Took() || codes.None? then s'
    else
      s'.(factors := s.factors[k := f.(verified := true, enabled := true, lastStep := if step.Some? then step else f.lastStep)],
          recovery := codes.value,
          log := if step.Some? then s.log + [Consumed(TotpStep(f.secret, step.value), k.user, None)] else s.log)
  }

  function ConfirmTotp(env: Env, s: State, u: UserId, code: string, hashes: seq<Hash>, tx: Tx): State {
    var k := Key(u, TotpKind);
    if k !in s.factors || s.factors[k].verified then s
    else
      var step := Totp.Accept(env.gen, s.factors[k].secret, code, LastStepOf(s.factors[k]), s.clock);
      if step.None? then s else Complete(s, k, step, hashes, tx)
  }

  /** `codeOk`: the enrolment code was checked by the machine of module `OneTimeCode`. */
  function ConfirmEmail(s: State, u: UserId, codeOk: bool, hashes: seq<Hash>, tx: Tx): State {
    var k := Key(u, EmailKind);
    if k !in s.factors || s.factors[k].verified || !codeOk then s else Complete(s, k, None, hashes, tx)
  }

  /** Deleting a factor row cascades to its recovery rows. */
  function Remove(s: State, k: Key): State {
    if k !in s.factors then s
    else s.(factors := s.factors - {k}, recovery := DeleteCodes(s.recovery, s.factors[k].id))
  }

  predicate Stale(s: State, k: Key) { k in s.factors && !s.factors[k].verified && s.factors[k].created < s.clock - PENDING_LIFE }

  datatype Call =
    | CTick(seconds: nat)
    | CSetUsable(user: UserId, isUsable: bool)
    | CLogin(user: UserId, passwordOk: bool, login: LoginFaults)
    | CVerify(challenge: nat, requested: Option<Kind>, code: string, verify: VerifyFaults)
    | CSendCode(challenge: nat, code: string)
    | CEnroll(key: Key, insert: Write)
    | CConfirmTotp(user: UserId, code: string, hashes: seq<Hash>, tx: Tx)
    | CConfirmEmail(user: UserId, codeOk: bool, hashes: seq<Hash>, tx: Tx)
    | CDisable(key: Key, passwordOk: bool, delete: Write)
    | CRemoveStale(key: Key)

  function Apply(env: Env, s: State, c: Call): State {
    match c
    case CTick(d) => s.(clock := s.clock + d)
    case CSetUsable(u, b) => s.(usable := if b then s.usable + {u} else s.usable - {u})
    case CLogin(u, p, f) => Login(s, u, p, f)
    case CVerify(ch, r, code, f) => Verify(env, s, ch, r, code, f)
    case CSendCode(ch, code) => SendCode(s, ch, code)
    case CEnroll(k, w) => Enroll(s, k, w)
    case CConfirmTotp(u, code, hashes, tx) => ConfirmTotp(env, s, u, code, hashes, tx)
    case CConfirmEmail(u, ok, hashes, tx) => ConfirmEmail(s, u, ok, hashes, tx)
    case CDisable(k, p, w) => if p && w.Took() then Remove(s, k) else s
    case CRemoveStale(k) => if Stale(s, k) then Remove(s, k) else s
  }

  /** `generateRecoveryCodes` produces the configured number of codes. */
  predicate WellSized(env: Env, c: Call) {
    (c.CConfirmTotp? || c.CConfirmEmail?) ==> |c.hashes| == env.count
  }

  function Run(env: Env, s: State, calls: seq<Call>): State {
    if calls == [] then s else Apply(env, Run(env, s, calls[..|calls| - 1]), calls[|calls| - 1])
  }

  ghost predicate Initial(s: State) {
    s.factors == map[] && s.recovery == map[] && s.emailed == map[] && s.challenges == map[] && s.log == []
  }
}
