/** Accounts and their login identities: email sign-up, single sign-on, and what every run of them keeps. */
module Identity {
  import opened Base
  import opened Username

  type Id = nat

  datatype Provider = Email | Google | Apple

  /** A row of `users`; `origin` is the provider the account was created with. */
  datatype User = User(email: string, username: string, display: string, origin: Provider, usable: bool)

  /** The unique key of `auth_identities`. */
  datatype Handle = Handle(provider: Provider, subject: string)

  datatype State = State(users: map<Id, User>, identities: map<Handle, Id>, next: Id)

  /** `lower` is Postgres's. */
  datatype Env = Env(lower: string -> string)

  datatype Reply =
    | EmailNotVerified | AccountConflict | AccountNotUsable | InvalidRequest | UsernameTaken | InternalError
    | LoggedIn(user: Id)

  // ----- lookups -----

  predicate UsernameExists(env: Env, s: State, name: string) { exists u | u in s.users :: s.users[u].username == env.lower(name) }

  predicate EmailExists(env: Env, s: State, email: string) {
    exists u | u in s.users :: env.lower(s.users[u].email) == env.lower(email)
  }

  function Lookup(env: Env, s: State, answers: string -> bool): string -> Option<bool> {
    name => if answers(name) then Some(UsernameExists(env, s, name)) else None
  }

  // ----- creating an account -----

  /** The constraints of the two tables: username format, unique names and emails, unique identity. */
  predicate Acceptable(env: Env, s: State, email: string, name: string, h: Handle) {
    && WellFormed(name)
    && !UsernameExists(env, s, name)
    && !EmailExists(env, s, env.lower(email))
    && (forall u | u in s.users :: s.users[u].email != env.lower(email))
    && h !in s.identities
  }

  /** User and identity are inserted in one transaction. */
  function Create(env: Env, s: State, email: string, name: string, h: Handle, tx: Tx): State {
    if tx.Took() && Acceptable(env, s, email, name, h) then
      State(s.users[s.next := User(env.lower(email), env.lower(name), name, h.provider, true)], s.identities[h := s.next], s.next + 1)
    else s.(next := s.next + 1)
  }

  function CreateReply(env: Env, s: State, email: string, name: string, h: Handle, tx: Tx): Reply {
    if tx.Committed? && Acceptable(env, s, email, name, h) then LoggedIn(s.next) else InternalError
  }

  // ----- calls -----

  datatype SsoFaults = SsoFaults(getIdentity: bool, getEmail: bool, answers: string -> bool, tx: Tx)

  /** The reply when no account is created. */
  function SsoRefusal(env: Env, s: State, h: Handle, email: string, verified: bool, f: SsoFaults): Option<Reply> {
    if !verified then Some(EmailNotVerified)
    else if !f.getIdentity then Some(InternalError)
    else if h in s.identities && s.identities[h] in s.users then
      Some(if s.users[s.identities[h]].usable then LoggedIn(s.identities[h]) else AccountNotUsable)
    else if !f.getEmail then Some(InternalError)
    else if EmailExists(env, s, email) then Some(AccountConflict)
    else if Pick(email, Lookup(env, s, f.answers), 0).None? then Some(InternalError)
    else None
  }

  function SsoLogin(env: Env, s: State, h: Handle, email: string, verified: bool, f: SsoFaults): State {
    if SsoRefusal(env, s, h, email, verified, f).Some? then s
    else Create(env, s, email, Pick(email, Lookup(env, s, f.answers), 0).value, h, f.tx)
  }

  function SsoReply(env: Env, s: State, h: Handle, email: string, verified: bool, f: SsoFaults): Reply {
    match SsoRefusal(env, s, h, email, verified, f)
    case Some(r) => r
    case None => CreateReply(env, s, email, Pick(email, Lookup(env, s, f.answers), 0).value, h, f.tx)
  }

  predicate ValidUsername(name: string) { |name| >= 2 && WellFormed(name) }

  /** `otherwiseValid`: email and password passed their checks and the password was hashed; `answers`: the first username lookup succeeded. */
  function JoinRefusal(env: Env, s: State, name: string, otherwiseValid: bool, answers: bool): Option<Reply> {
    if !ValidUsername(name) || !otherwiseValid then Some(InvalidRequest)
    else if !answers then Some(InternalError)
    else if UsernameExists(env, s, name) then Some(UsernameTaken)
    else None
  }

  function Join(env: Env, s: State, email: string, name: string, otherwiseValid: bool, answers: bool, tx: Tx): State {
    if JoinRefusal(env, s, name, otherwiseValid, answers).Some? then s
    else Create(env, s, email, name, Handle(Email, env.lower(email)), tx)
  }

  function JoinReply(env: Env, s: State, email: string, name: string, otherwiseValid: bool, answers: bool, tx: Tx): Reply {
    match JoinRefusal(env, s, name, otherwiseValid, answers)
    case Some(r) => r
    case None => CreateReply(env, s, email, name, Handle(Email, env.lower(email)), tx)
  }

  /** The two single-sign-on handlers pass their own provider, as identity provider and as origin. */
  datatype Call =
    | CSso(provider: Provider, subject: string, email: string, verified: bool, faults: SsoFaults)
    | CJoin(email: string, name: string, otherwiseValid: bool, answers: bool, tx: Tx)
    | CSetUsable(user: Id, isUsable: bool)

  function Apply(env: Env, s: State, c: Call): State {
    match c
    case CSso(p, sub, email, v, f) => SsoLogin(env, s, Handle(p, sub), email, v, f)
    case CJoin(email, name, ok, answers, tx) => Join(env, s, email, name, ok, answers, tx)
    case CSetUsable(u, b) => if u in s.users then s.(users := s.users[u := s.users[u].(usable := b)]) else s
  }

  function Run(env: Env, s: State, calls: seq<Call>): State {
    if calls == [] then s else Apply(env, Run(env, s, calls[..|calls| - 1]), calls[|calls| - 1])
  }

  // ----- the invariant -----

  /** Every identity belongs to an account of the same origin, and every account has exactly one. */
  ghost predicate OneIdentity(s: State) {
    && (forall h | h in s.identities :: s.identities[h] in s.users && s.users[s.identities[h]].origin == h.provider)
    && (forall g, h | g in s.identities && h in s.identities && s.identities[g] == s.identities[h] :: g == h)
    && (forall u | u in s.users :: exists h :: h in s.identities && s.identities[h] == u)
  }

  /** No two accounts share a username or an email, and usernames are canonical and well formed. */
  ghost predicate NamesOk(env: Env, s: State) {
    && (forall u | u in s.users :: u < s.next && WellFormed(s.users[u].display) && s.users[u].username == env.lower(s.users[u].display))
    && (forall u, v | u in s.users && v in s.users && u != v :: s.users[u].username != s.users[v].username)
    && (forall u, v | u in s.users && v in s.users && u != v :: s.users[u].email != s.users[v].email)
  }

  ghost predicate Inv(env: Env, s: State) { OneIdentity(s) && NamesOk(env, s) }

  /** Accounts and identities are never rebound; `usable` may change. */
  ghost predicate Extends(s: State, s': State) {
    && (forall h | h in s.identities :: h in s'.identities && s'.identities[h] == s.identities[h])
    && (forall u | u in s.users :: u in s'.users && s'.users[u].(usable := s.users[u].usable) == s.users[u])
  }

  lemma CreateKeepsOne(env: Env, s: State, email: string, name: string, h: Handle, tx: Tx)
    requires OneIdentity(s) && s.next !in s.users
    ensures OneIdentity(Create(env, s, email, name, h, tx))
  {
    var s' := Create(env, s, email, name, h, tx);
    forall u | u in s'.users ensures exists x :: x in s'.identities && s'.identities[x] == u {
      if u in s.users {
        var x :| x in s.identities && s.identities[x] == u;
        assert x in s'.identities && s'.identities[x] == u;
      } else {
        assert h in s'.identities && s'.identities[h] == u;
      }
    }
  }

  lemma CreateKeepsNames(env: Env, s: State, email: string, name: string, h: Handle, tx: Tx)
    requires NamesOk(env, s)
    ensures NamesOk(env, Create(env, s, email, name, h, tx))
  {
    var s' := Create(env, s, email, name, h, tx);
    if tx.Took() && Acceptable(env, s, email, name, h) {
      assert forall u | u in s.users :: s.users[u].username != env.lower(name) && s.users[u].email != env.lower(email);
      assert s.next !in s.users;
    }
  }

  lemma CreateExtends(env: Env, s: State, email: string, name: string, h: Handle, tx: Tx)
    requires s.next !in s.users
    ensures Extends(s, Create(env, s, email, name, h, tx))
  {
  }

  lemma CreateKeepsInv(env: Env, s: State, email: string, name: string, h: Handle, tx: Tx)
    requires Inv(env, s)
    ensures Inv(env, Create(env, s, email, name, h, tx)) && Extends(s, Create(env, s, email, name, h, tx))
  {
    assert s.next !in s.users;
    CreateKeepsOne(env, s, email, name, h, tx);
    CreateKeepsNames(env, s, email, name, h, tx);
    CreateExtends(env, s, email, name, h, tx);
  }

  /** Same accounts up to `usable`. */
  ghost predicate SameAccounts(s: State, s': State) {
    && s'.identities == s.identities && s'.next == s.next && s'.users.Keys == s.users.Keys
    && forall x | x in s.users :: s'.users[x] == s.users[x] || exists b :: s'.users[x] == s.users[x].(usable := b)
  }

  lemma SameKeepsOne(s: State, s': State)
    requires OneIdentity(s) && SameAccounts(s, s')
    ensures OneIdentity(s')
  {
  }

  lemma SameKeepsNames(env: Env, s: State, s': State)
    requires NamesOk(env, s) && SameAccounts(s, s')
    ensures NamesOk(env, s')
  {
    assert forall x | x in s.users :: s'.users[x].display == s.users[x].display && s'.users[x].username == s.users[x].username
                                      && s'.users[x].email == s.users[x].email;
  }

  lemma SameExtends(s: State, s': State)
    requires SameAccounts(s, s')
    ensures Extends(s, s')
  {
  }

  lemma UsableKeepsInv(env: Env, s: State, u: Id, b: bool)
    requires Inv(env, s) && u in s.users
    ensures var s' := s.(users := s.users[u := s.users[u].(usable := b)]); Inv(env, s') && Extends(s, s')
  {
    var s' := s.(users := s.users[u := s.users[u].(usable := b)]);
    assert SameAccounts(s, s');
    SameKeepsOne(s, s');
    SameKeepsNames(env, s, s');
    SameExtends(s, s');
  }

  lemma ExtendsSelf(s: State)
    ensures Extends(s, s)
  {
  }

  lemma CallKeepsInv(env: Env, s: State, c: Call)
    requires Inv(env, s)
    ensures Inv(env, Apply(env, s, c)) && Extends(s, Apply(env, s, c))
  {
    ExtendsSelf(s);
    match c
    case CSso(p, sub, email, v, f) =>
      if SsoRefusal(env, s, Handle(p, sub), email, v, f).None? {
        CreateKeepsInv(env, s, email, Pick(email, Lookup(env, s, f.answers), 0).value, Handle(p, sub), f.tx);
      }
    case CJoin(email, name, ok, answers, tx) =>
      if JoinRefusal(env, s, name, ok, answers).None? { CreateKeepsInv(env, s, email, name, Handle(Email, env.lower(email)), tx); }
    case CSetUsable(u, b) => if u in s.users { UsableKeepsInv(env, s, u, b); }
  }

  ghost predicate Initial(s: State) { s.users == map[] && s.identities == map[] }

  /** In every reachable state each account has exactly one identity, whose provider is its origin. */
  lemma {:induction false} IdentitiesAlwaysOk(env: Env, s: State, calls: seq<Call>)
    requires Initial(s)
    ensures Inv(env, Run(env, s, calls))
  {
    if calls != [] {
      IdentitiesAlwaysOk(env, s, calls[..|calls| - 1]);
      CallKeepsInv(env, Run(env, s, calls[..|calls| - 1]), calls[|calls| - 1]);
    }
  }

  lemma {:induction false} BoundForever(env: Env, s: State, calls: seq<Call>, n: nat)
    requires Initial(s) && n <= |calls|
    ensures Extends(Run(env, s, calls[..n]), Run(env, s, calls))
    decreases |calls|
  {
    if n == |calls| {
      assert calls[..n] == calls;
      ExtendsSelf(Run(env, s, calls));
    } else {
      var m := |calls| - 1;
      assert calls[..m][..n] == calls[..n];
      BoundForever(env, s, calls[..m], n);
      LastCallExtends(env, s, calls);
      ExtendsFurther(Run(env, s, calls[..n]), Run(env, s, calls[..m]), Run(env, s, calls));
    }
  }

  lemma LastCallExtends(env: Env, s: State, calls: seq<Call>)
    requires Initial(s) && calls != []
    ensures Extends(Run(env, s, calls[..|calls| - 1]), Run(env, s, calls))
  {
    IdentitiesAlwaysOk(env, s, calls[..|calls| - 1]);
    CallKeepsInv(env, Run(env, s, calls[..|calls| - 1]), calls[|calls| - 1]);
  }

  lemma ExtendsFurther(a: State, b: State, c: State)
    requires Extends(a, b) && Extends(b, c)
    ensures Extends(a, c)
  {
  }

  lemma LoggedInIsBound(env: Env, s: State, c: Call)
    requires Inv(env, s) && c.CSso? && SsoReply(env, s, Handle(c.provider, c.subject), c.email, c.verified, c.faults).LoggedIn?
    ensures
      var h, s' := Handle(c.provider, c.subject), Apply(env, s, c);
      h in s'.identities && s'.identities[h] == SsoReply(env, s, h, c.email, c.verified, c.faults).user
  {
  }

  lemma AfterCall(env: Env, s: State, calls: seq<Call>, i: nat, j: nat)
    requires Initial(s) && i < j <= |calls|
    ensures Extends(Apply(env, Run(env, s, calls[..i]), calls[i]), Run(env, s, calls[..j])) && Inv(env, Run(env, s, calls[..j]))
  {
    assert calls[..i + 1][..i] == calls[..i] && calls[..j][..i + 1] == calls[..i + 1];
    BoundForever(env, s, calls[..j], i + 1);
    IdentitiesAlwaysOk(env, s, calls[..j]);
  }

  /** A login with an identity that was bound earlier is to the account it was bound to. */
  lemma LoginFollowsBinding(env: Env, s1: State, s2: State, c: Call)
    requires Extends(s1, s2) && Inv(env, s2) && c.CSso? && Handle(c.provider, c.subject) in s1.identities
    ensures
      var h := Handle(c.provider, c.subject);
      SsoReply(env, s2, h, c.email, c.verified, c.faults).LoggedIn? ==>
        SsoReply(env, s2, h, c.email, c.verified, c.faults).user == s1.identities[h]
  {
  }

  /** Two logins with the same provider and subject, however far apart and whatever email they carry, are to the same account. */
  lemma SameSubjectSameAccount(env: Env, s: State, calls: seq<Call>, i: nat, j: nat)
    requires Initial(s) && i < j < |calls| && calls[i].CSso? && calls[j].CSso?
    requires calls[i].provider == calls[j].provider && calls[i].subject == calls[j].subject
    requires
      var a, b := calls[i], calls[j];
      && SsoReply(env, Run(env, s, calls[..i]), Handle(a.provider, a.subject), a.email, a.verified, a.faults).LoggedIn?
      && SsoReply(env, Run(env, s, calls[..j]), Handle(b.provider, b.subject), b.email, b.verified, b.faults).LoggedIn?
    ensures
      var a, b := calls[i], calls[j];
      SsoReply(env, Run(env, s, calls[..i]), Handle(a.provider, a.subject), a.email, a.verified, a.faults).user ==
      SsoReply(env, Run(env, s, calls[..j]), Handle(b.provider, b.subject), b.email, b.verified, b.faults).user
  {
    var si, sj := Run(env, s, calls[..i]), Run(env, s, calls[..j]);
    IdentitiesAlwaysOk(env, s, calls[..i]);
    LoggedInIsBound(env, si, calls[i]);
    AfterCall(env, s, calls, i, j);
    LoginFollowsBinding(env, Apply(env, si, calls[i]), sj, calls[j]);
  }

  /** The first free candidate is accepted by the tables exactly unless it is the unnumbered one, cut at a dot. */
  lemma PickedAcceptable(env: Env, s: State, h: Handle, email: string, answers: string -> bool, k: nat)
    requires (forall x :: env.lower(env.lower(x)) == env.lower(x)) && h !in s.identities && !EmailExists(env, s, email)
    requires FirstFree(email, Lookup(env, s, answers), k)
    ensures Pick(email, Lookup(env, s, answers), 0) == Some(Candidate(email, k))
    ensures Acceptable(env, s, email, Candidate(email, k), h) <==> k > 0 || !CutAtDot(email)
  {
    FirstFreeIsPicked(email, Lookup(env, s, answers), k, 0);
    CandidateShape(email, k);
    assert !UsernameExists(env, s, Candidate(email, k));
  }

  /**
   * Single sign-on creates an account exactly when the provider vouches for the
   * email, the identity is unknown, nobody has the email, some candidate
   * username is the first free one and is not the unnumbered one cut at a dot,
   * and the transaction took effect.
   */
  lemma SsoCreatesIff(env: Env, s: State, h: Handle, email: string, verified: bool, f: SsoFaults)
    requires OneIdentity(s) && forall x :: env.lower(env.lower(x)) == env.lower(x)
    ensures
      SsoLogin(env, s, h, email, verified, f).identities != s.identities <==>
        && verified && f.getIdentity && h !in s.identities && f.getEmail && !EmailExists(env, s, email) && f.tx.Took()
        && exists k: nat :: FirstFree(email, Lookup(env, s, f.answers), k) && (k > 0 || !CutAtDot(email))
  {
    var s', look := SsoLogin(env, s, h, email, verified, f), Lookup(env, s, f.answers);
    if h !in s.identities && !EmailExists(env, s, email) {
      if Pick(email, look, 0).Some? {
        PickedIsFirstFree(email, look, 0);
        var i: nat :| FirstFree(email, look, i);
        PickedAcceptable(env, s, h, email, f.answers, i);
        assert forall k: nat :: FirstFree(email, look, k) ==> k == i;
      } else {
        forall k: nat ensures !FirstFree(email, look, k) {
          if FirstFree(email, look, k) { FirstFreeIsPicked(email, look, k, 0); }
        }
      }
      assert h in s'.identities ==> s'.identities != s.identities;
    }
  }

  /** An existing account is never changed or linked to a new identity by single sign-on. */
  lemma SsoNeverLinks(env: Env, s: State, h: Handle, email: string, verified: bool, f: SsoFaults)
    requires Inv(env, s)
    ensures
      var s' := SsoLogin(env, s, h, email, verified, f);
      && (forall u | u in s.users :: u in s'.users && s'.users[u] == s.users[u])
      && (forall g | g in s'.identities && g !in s.identities :: g == h && s'.identities[g] !in s.users)
  {
    assert s.next !in s.users;
  }

  // ----- every answer -----

  /** A known identity logs in its own account, exactly if that account is usable. */
  lemma KnownIdentityAnswer(env: Env, s: State, h: Handle, email: string, f: SsoFaults)
    requires OneIdentity(s) && h in s.identities && f.getIdentity
    ensures
      var r := SsoReply(env, s, h, email, true, f);
      && SsoLogin(env, s, h, email, true, f) == s
      && (r == LoggedIn(s.identities[h]) <==> s.users[s.identities[h]].usable)
      && (r == AccountNotUsable <==> !s.users[s.identities[h]].usable)
  {
  }

  /** The refusals of single sign-on. */
  lemma SsoRefusals(env: Env, s: State, h: Handle, email: string, verified: bool, f: SsoFaults)
    requires OneIdentity(s)
    ensures
      var r := SsoReply(env, s, h, email, verified, f);
      && (r == EmailNotVerified <==> !verified)
      && (r == AccountConflict <==>
            (verified && f.getIdentity && f.getEmail && h !in s.identities
             && exists u | u in s.users :: env.lower(s.users[u].email) == env.lower(email)))
      && (r.LoggedIn? || r == AccountNotUsable ==> verified && f.getIdentity)
  {
  }

  /** A new account carries the canonical email and username, the display name, and the origin of its identity, and is usable. */
  lemma CreatedAccount(env: Env, s: State, email: string, name: string, h: Handle, tx: Tx)
    requires s.next !in s.users && CreateReply(env, s, email, name, h, tx).LoggedIn?
    ensures
      var s', u := Create(env, s, email, name, h, tx), CreateReply(env, s, email, name, h, tx).user;
      && u !in s.users && s'.users == s.users[u := User(env.lower(email), env.lower(name), name, h.provider, true)]
      && h !in s.identities && s'.identities == s.identities[h := u]
  {
  }

  /** Email sign-up creates an account exactly for valid input, a free and well-formed name and a free email, if the transaction took effect. */
  lemma JoinCreatesIff(env: Env, s: State, email: string, name: string, otherwiseValid: bool, answers: bool, tx: Tx)
    requires Inv(env, s) && forall x :: env.lower(env.lower(x)) == env.lower(x)
    ensures
      Join(env, s, email, name, otherwiseValid, answers, tx).users != s.users <==>
        && otherwiseValid && answers && tx.Took() && 2 <= |name| && WellFormed(name)
        && (forall u | u in s.users :: s.users[u].username != env.lower(name))
        && (forall u | u in s.users :: env.lower(s.users[u].email) != env.lower(email))
        && Handle(Email, env.lower(email)) !in s.identities
  {
    var s' := Join(env, s, email, name, otherwiseValid, answers, tx);
    assert s.next !in s.users;
    assert s.next in s'.users ==> s'.users != s.users;
    assert env.lower(env.lower(email)) == env.lower(email);
  }

  lemma JoinTakenIff(env: Env, s: State, email: string, name: string, otherwiseValid: bool, answers: bool, tx: Tx)
    ensures JoinReply(env, s, email, name, otherwiseValid, answers, tx) == UsernameTaken <==>
        otherwiseValid && answers && 2 <= |name| && WellFormed(name) && exists u | u in s.users :: s.users[u].username == env.lower(name)
  {
  }

  // ----- as it runs -----

  class IdentityStore {
    var users: map<Id, User>
    var identities: map<Handle, Id>
    var next: Id

    constructor ()
      ensures Initial(View())
    {
      users, identities, next := map[], map[], 0;
    }

    function View(): State
      reads this
    {
      State(users, identities, next)
    }

    /** The transaction of `CreateSSOUserAndIdentity` and `CreateEmailUser`: two inserts on a working copy, then the commit. */
    method CreateAccount(env: Env, email: string, name: string, h: Handle, tx: Tx) returns (reply: Reply)
      modifies this
      ensures View() == Create(env, old(View()), email, name, h, tx)
      ensures reply == CreateReply(env, old(View()), email, name, h, tx)
    {
      var u := next;
      next := next + 1;
      if tx == FailedAt(0) { return InternalError; }
      var row := User(env.lower(email), env.lower(name), name, h.provider, true);
      if !WellFormed(name) || (exists x | x in users :: users[x].username == row.username) { return InternalError; }
      if exists x | x in users :: users[x].email == row.email || env.lower(users[x].email) == env.lower(row.email) { return InternalError; }
      var users' := users[u := row];
      if tx == FailedAt(1) || h in identities { return InternalError; }
      var identities' := identities[h := u];
      if tx.Committed? || (tx.CommitFailed? && tx.applied) { users, identities := users', identities'; }
      return if tx.Committed? then LoggedIn(u) else InternalError;
    }

    method SSOLogin(env: Env, h: Handle, email: string, verified: bool, f: SsoFaults) returns (reply: Reply)
      modifies this
      ensures View() == SsoLogin(env, old(View()), h, email, verified, f)
      ensures reply == SsoReply(env, old(View()), h, email, verified, f)
    {
      if !verified { return EmailNotVerified; }
      if !f.getIdentity { return InternalError; }
      if h in identities && identities[h] in users {
        var u := identities[h];
        if !users[u].usable { return AccountNotUsable; }
        return LoggedIn(u);
      }
      if !f.getEmail { return InternalError; }
      if EmailExists(env, View(), email) { return AccountConflict; }
      var name := GenerateUniqueUsername(email, Lookup(env, View(), f.answers));
      if name.None? { return InternalError; }
      reply := CreateAccount(env, email, name.value, h, f.tx);
    }

    method CompleteEmailJoin(env: Env, email: string, name: string, otherwiseValid: bool, answers: bool, tx: Tx) returns (reply: Reply)
      modifies this
      ensures View() == Join(env, old(View()), email, name, otherwiseValid, answers, tx)
      ensures reply == JoinReply(env, old(View()), email, name, otherwiseValid, answers, tx)
    {
      if !ValidUsername(name) || !otherwiseValid { return InvalidRequest; }
      if !answers { return InternalError; }
      if UsernameExists(env, View(), name) { return UsernameTaken; }
      reply := CreateAccount(env, email, name, Handle(Email, env.lower(email)), tx);
    }
  }
}
