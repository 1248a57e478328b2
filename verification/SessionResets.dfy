/** Single use of password reset tokens over whole runs of service calls. */
module SessionResets {
  import opened Base
  import opened Sessions

  /** Resets are named from the supply and no two share a token. */
  ghost predicate ResetsOk(s: State) {
    && (forall id | id in s.resets :: id < s.next && s.resets[id].hash < s.next)
    && (forall a, b | a in s.resets && b in s.resets && s.resets[a].hash == s.resets[b].hash :: a == b)
  }

  /** Rows keep their token and stay used; a new row has a new token. */
  ghost predicate Moves(s: State, s': State) {
    && s.next <= s'.next
    && forall id | id in s'.resets ::
         || s'.resets[id].hash >= s.next
         || (id in s.resets && s'.resets[id].hash == s.resets[id].hash && (s.resets[id].used ==> s'.resets[id].used))
  }

  lemma IssuingKeepsResets(s: State, c: Call)
    requires c.CSignUp? || c.CLogin? || c.CRefresh?
    ensures Apply(s, c).resets == s.resets && s.next <= Apply(s, c).next
  {
  }

  lemma RevokingKeepsResets(s: State, c: Call)
    requires c.CTick? || c.CLogout? || c.CSetStatus? || c.CForceLogout? || c.CDeleteUser? || c.CChangeRole? || c.CChangePassword?
             || c.CRevokeExpired? || c.CRevokeOld?
    ensures Apply(s, c).resets == s.resets && s.next <= Apply(s, c).next
  {
  }

  lemma CallMovesResets(s: State, c: Call)
    requires ResetsOk(s)
    ensures ResetsOk(Apply(s, c)) && Moves(s, Apply(s, c))
  {
    if c.CSignUp? || c.CLogin? || c.CRefresh? {
      IssuingKeepsResets(s, c);
    } else if c.CRequestReset? || c.CResetPassword? {
    } else {
      RevokingKeepsResets(s, c);
    }
  }

  lemma {:induction false} ResetsOkAt(s: State, calls: seq<Call>, k: nat)
    requires s.resets == map[] && k <= |calls|
    ensures ResetsOk(At(s, calls, k))
  {
    if k == 0 {
      assert At(s, calls, 0) == s;
    } else {
      ResetsOkAt(s, calls, k - 1);
      CallMovesResets(At(s, calls, k - 1), calls[k - 1]);
    }
  }

  /** The k-th call reset a password with token `tok`. */
  ghost predicate Redeems(s: State, calls: seq<Call>, k: nat, tok: Secret) {
    && k < |calls| && calls[k].CResetPassword? && calls[k].tok == tok
    && ResetRefusal(At(s, calls, k), calls[k].reset, tok, calls[k].checks).None? && calls[k].bulk.tx.Took()
  }

  /** No row answers to `tok` any more, and none ever will. */
  ghost predicate Redeemed(s: State, tok: Secret) {
    tok < s.next && forall id | id in s.resets && s.resets[id].hash == tok :: s.resets[id].used
  }

  lemma {:induction false} RedeemedForever(s: State, calls: seq<Call>, i: nat, j: nat, tok: Secret)
    requires Initial(s) && i <= j <= |calls| && Redeemed(At(s, calls, i), tok)
    ensures Redeemed(At(s, calls, j), tok)
    decreases j
  {
    if i < j {
      RedeemedForever(s, calls, i, j - 1, tok);
      ResetsOkAt(s, calls, j - 1);
      CallMovesResets(At(s, calls, j - 1), calls[j - 1]);
    }
  }

  /** Whatever fails in between: once a reset with a token took effect, every later attempt with that token is refused. */
  lemma RedeemedAtMostOnce(s: State, calls: seq<Call>, i: nat, j: nat, tok: Secret)
    requires Initial(s) && i < j < |calls| && Redeems(s, calls, i, tok)
    ensures !Redeems(s, calls, j, tok)
    ensures forall id, k: PasswordChecks | k.format && k.lookup :: ResetRefusal(At(s, calls, j), id, tok, k) == Some(InvalidOrExpiredToken)
  {
    ResetsOkAt(s, calls, i);
    var before, after := At(s, calls, i), At(s, calls, i + 1);
    var id := calls[i].reset;
    assert after.resets == before.resets[id := before.resets[id].(used := true)];
    assert Redeemed(after, tok);
    RedeemedForever(s, calls, i + 1, j, tok);
  }
}
