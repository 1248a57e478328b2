/** What an access token's role claim is worth, and what the API can never do to an admin. All outcomes of all store accesses. */
module SessionAuthority {
  import opened Base
  import opened Sessions

  /** In state `x` user `t.user` really has the role named in token `t`, which is signed at that instant. */
  ghost predicate SignedIn(x: State, t: Claims) {
    x.clock == t.iat && t.exp == t.iat + ACCESS_TTL && t.user in x.users && RoleName(x.users[t.user].role) == t.role
  }

  /** The only tokens a call signs carry the stored role of their user at the instant of signing. */
  lemma SignsStoredRole(s: State, c: Call, t: Claims)
    requires t in Apply(s, c).signed
    ensures t in s.signed || SignedIn(Apply(s, c), t)
  {
  }

  lemma ClockAdvances(s: State, c: Call)
    ensures s.clock <= Apply(s, c).clock
  {
  }

  /** Every token in existence was signed in some state of the run, no later than now. */
  lemma {:induction false} EveryTokenWasSigned(s: State, calls: seq<Call>, k: nat, t: Claims) returns (i: nat)
    requires Initial(s) && k <= |calls| && t in At(s, calls, k).signed
    ensures i <= k && SignedIn(At(s, calls, i), t) && t.iat <= At(s, calls, k).clock
  {
    var x := At(s, calls, k - 1);
    SignsStoredRole(x, calls[k - 1], t);
    if t in x.signed {
      i := EveryTokenWasSigned(s, calls, k - 1, t);
      ClockAdvances(x, calls[k - 1]);
    } else {
      i := k;
    }
  }

  /**
   * Bounded staleness: whenever `requireRole` lets an accepted token through at
   * time t, there was a moment in (t - ACCESS_TTL, t] at which the stored role
   * of its user ranked at least as high as the minimum.
   */
  lemma AuthorityIsRecent(s: State, calls: seq<Call>, k: nat, t: Claims, min: Role)
    requires Initial(s) && k <= |calls|
    requires Accepted(At(s, calls, k), t) && RequireRole(min, t.role)
    ensures exists i: nat ::
      && i <= k && At(s, calls, k).clock - ACCESS_TTL < At(s, calls, i).clock <= At(s, calls, k).clock
      && t.user in At(s, calls, i).users
      && RequireRole(min, RoleName(At(s, calls, i).users[t.user].role))
  {
    var i := EveryTokenWasSigned(s, calls, k, t);
  }

  /** A role string that names no role ranks as a plain user: it passes exactly the gates a plain user passes. */
  lemma UnknownRoleRanksAsUser(min: Role, name: string)
    requires name != "user" && name != "moderator" && name != "admin"
    ensures RequireRole(min, name) <==> min == Plain
    ensures forall r: Role :: RequireRole(min, RoleName(r)) <==>
      (min == Plain || r == Admin || (min == Moderator && r == Moderator))
  {
  }

  predicate IsAdmin(s: State, u: Id) { u in s.users && s.users[u].role == Admin }

  /** Whether `u` is an admin, and if so its role, status and deletion mark, are the same in both states. */
  predicate SameAdmin(s: State, s': State, u: Id) {
    && (IsAdmin(s', u) <==> IsAdmin(s, u))
    && (IsAdmin(s, u) ==> s'.users[u].status == s.users[u].status && s'.users[u].deleted == s.users[u].deleted)
  }

  predicate AdminCall(c: Call) { c.CSetStatus? || c.CForceLogout? || c.CDeleteUser? || c.CChangeRole? }

  lemma AdminCallKeepsAdmin(s: State, c: Call, u: Id)
    requires AdminCall(c)
    ensures Apply(s, c).next == s.next && (u in Apply(s, c).users ==> u in s.users)
    ensures SameAdmin(s, Apply(s, c), u)
  {
    var loaded := if c.CChangeRole? then c.loaded else c.bulk.loaded;
    if Refusal(s, c.actor, c.target, loaded).None? && u == c.target {
      assert s.users[u].role != Admin;
    }
  }

  lemma IssuingKeepsAdmin(s: State, c: Call, u: Id)
    requires (c.CSignUp? || c.CLogin? || c.CRefresh?) && (u in s.users ==> u < s.next)
    ensures s.next <= Apply(s, c).next && (u in Apply(s, c).users ==> u < Apply(s, c).next)
    ensures SameAdmin(s, Apply(s, c), u)
  {
  }

  lemma OtherCallKeepsAdmin(s: State, c: Call, u: Id)
    requires !AdminCall(c) && (u in s.users ==> u < s.next)
    ensures s.next <= Apply(s, c).next && (u in Apply(s, c).users ==> u < Apply(s, c).next)
    ensures SameAdmin(s, Apply(s, c), u)
  {
    if c.CSignUp? || c.CLogin? || c.CRefresh? { IssuingKeepsAdmin(s, c, u); }
  }

  /** Over every run, through whatever failures, the admin accounts stay the same, with the same status and deletion mark. */
  lemma {:induction false} AdminsNeverChange(s: State, calls: seq<Call>, k: nat, u: Id)
    requires Initial(s) && k <= |calls|
    ensures u in At(s, calls, k).users ==> u < At(s, calls, k).next
    ensures SameAdmin(s, At(s, calls, k), u)
  {
    if k > 0 {
      AdminsNeverChange(s, calls, k - 1, u);
      if AdminCall(calls[k - 1]) {
        AdminCallKeepsAdmin(At(s, calls, k - 1), calls[k - 1], u);
      } else {
        OtherCallKeepsAdmin(At(s, calls, k - 1), calls[k - 1], u);
      }
    }
  }
}
