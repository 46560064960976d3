/** How long a tombstone waits between resends, and a refused row between attempts. */
module ResendPolicy {

  const MIN_RESEND_AFTER_SECONDS: nat := 30
  const MAX_RESEND_AFTER_SECONDS: nat := 86_400
  const MAX_RESEND_CAP_SECONDS: nat := 604_800
  const MAX_DOUBLINGS: nat := 60

  datatype Policy = Policy(after: nat, cap: nat)

  /** What configuration loading accepts. */
  predicate Accepted(p: Policy) {
    && MIN_RESEND_AFTER_SECONDS <= p.after <= MAX_RESEND_AFTER_SECONDS
    && p.cap <= MAX_RESEND_CAP_SECONDS
    && p.after <= p.cap
  }

  function Power2(n: nat): nat {
    if n == 0 then 1 else 2 * Power2(n - 1)
  }

  function Min(a: nat, b: nat): nat {
    if a <= b then a else b
  }

  /** Seconds until the next resend of a row that was resent `resends` times before. */
  function Wait(p: Policy, resends: nat): nat {
    Min(p.cap, p.after * Power2(Min(resends, MAX_DOUBLINGS)))
  }

  /** Seconds until the next attempt at a row that was refused `attempts` times before. */
  function RefusalDelay(attempts: nat): nat {
    Min(300, 2 * Power2(Min(attempts, 7)))
  }

  lemma {:induction false} Power2Grows(m: nat, n: nat)
    requires m <= n
    ensures 1 <= Power2(m) <= Power2(n)
  {
    if m < n {
      Power2Grows(m, n - 1);
    } else if n > 0 {
      Power2Grows(m - 1, n - 1);
    }
  }

  lemma ProductGrows(a: nat, x: nat, y: nat)
    requires x <= y
    ensures a * x <= a * y
  {
  }

  /** From the fifteenth doubling on every accepted policy waits the cap. */
  lemma AtCapFrom15(p: Policy, n: nat)
    requires Accepted(p) && n >= 15
    ensures p.after * Power2(n) >= p.cap && Wait(p, n) == p.cap
  {
    assert Power2(15) == 32_768;
    assert p.after * 32_768 >= p.cap;
    Power2Grows(15, n);
    ProductGrows(p.after, Power2(15), Power2(n));
    Power2Grows(15, Min(n, MAX_DOUBLINGS));
    ProductGrows(p.after, Power2(15), Power2(Min(n, MAX_DOUBLINGS)));
  }

  /** Fifteen is needed: the smallest first wait with the largest cap is not there at fourteen. */
  lemma FifteenIsTight()
    ensures exists p :: Accepted(p) && Wait(p, 14) < p.cap
  {
    var p := Policy(30, 604_800);
    assert Power2(14) == 16_384;
    assert Accepted(p) && Wait(p, 14) == 491_520;
  }

  /** Bounding the exponent never changes the wait: it is the capped doubling of the first wait. */
  lemma ExponentBoundIsInert(p: Policy, n: nat)
    requires Accepted(p)
    ensures Wait(p, n) == Min(p.cap, p.after * Power2(n))
  {
    if n > MAX_DOUBLINGS { AtCapFrom15(p, n); }
  }

  lemma WaitNeverShrinks(p: Policy, m: nat, n: nat)
    requires Accepted(p) && m <= n
    ensures Wait(p, m) <= Wait(p, n)
  {
    ExponentBoundIsInert(p, m);
    ExponentBoundIsInert(p, n);
    Power2Grows(m, n);
    ProductGrows(p.after, Power2(m), Power2(n));
  }

  lemma WaitWithinBounds(p: Policy, n: nat)
    requires Accepted(p)
    ensures p.after == Wait(p, 0) <= Wait(p, n) <= p.cap
  {
    WaitNeverShrinks(p, 0, n);
  }

  /** The wait doubles exactly until the cap. */
  lemma WaitDoubles(p: Policy, n: nat)
    requires Accepted(p)
    ensures Wait(p, n + 1) == Min(p.cap, 2 * Wait(p, n))
  {
    ExponentBoundIsInert(p, n);
    ExponentBoundIsInert(p, n + 1);
    DoubledProduct(p.after, Power2(n));
  }

  lemma DoubledProduct(a: nat, x: nat)
    ensures a * (2 * x) == 2 * (a * x)
  {
  }

  /** The refusal delay runs from 2 to 256 seconds, both reached, so its cap of 300 never binds. */
  lemma RefusalDelayBounds(n: nat)
    ensures 2 <= RefusalDelay(n) <= 256
    ensures RefusalDelay(n) == 2 * Power2(Min(n, 7))
    ensures RefusalDelay(n) == 256 <==> n >= 7
    ensures RefusalDelay(n) <= RefusalDelay(n + 1)
  {
    assert Power2(7) == 128 && Power2(6) == 64;
    Power2Grows(0, Min(n, 7));
    Power2Grows(Min(n, 7), 7);
    Power2Grows(Min(n, 7), Min(n + 1, 7));
    Power2Grows(Min(n + 1, 7), 7);
    if n < 7 { Power2Grows(n, 6); }
  }
}
