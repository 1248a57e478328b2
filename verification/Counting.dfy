/** Periods that fit into a span: the arithmetic of the throttling bounds. */
module Counting {

  /** k periods of length d, one after the other. */
  function Times(k: nat, d: int): int { if k == 0 then 0 else Times(k - 1, d) + d }

  lemma {:induction false} TimesIsProduct(k: nat, d: int)
    ensures Times(k, d) == k * d
  {
    if k > 0 {
      TimesIsProduct(k - 1, d);
      assert (k - 1) * d + d == k * d;
    }
  }

  /** floor(t / d) is the greatest number of periods that fit into t. */
  lemma {:induction false} FloorIsGreatest(k: nat, d: int, t: nat)
    requires d >= 1
    ensures t / d >= 0
    ensures Times(k, d) <= t <==> k <= t / d
  {
    TimesIsProduct(k, d);
    var q, r := t / d, t % d;
    assert t == q * d + r && 0 <= r < d;
    if k <= q {
      assert k * d <= q * d;
    } else {
      assert (q + 1) * d == q * d + d;
      assert k * d >= (q + 1) * d;
    }
  }

  lemma {:induction false} TimesGrows(k: nat, d: int)
    requires d >= 0
    ensures 0 <= Times(k, d) <= Times(k + 1, d)
  {
    if k > 0 { TimesGrows(k - 1, d); }
  }
}
