/** Positions that only grow, stored in a ring of n slots at position modulo n. */
module RingIndex {

  lemma NoSmallMultiple(k: int, n: nat)
    ensures !(0 < k * n < n)
  {
    if k >= 1 {
      assert k * n == n + (k - 1) * n;
      assert (k - 1) * n >= 0;
    } else {
      assert -k * n >= 0;
    }
  }

  /** Two positions less than n apart, but not equal, have different slots. */
  lemma SlotsDiffer(a: nat, b: nat, n: nat)
    requires a < b < a + n
    ensures a % n != b % n
  {
    var qa, qb, ra, rb := a / n, b / n, a % n, b % n;
    assert a == qa * n + ra && b == qb * n + rb;
    if ra == rb {
      assert b - a == qb * n - qa * n == (qb - qa) * n;
      NoSmallMultiple(qb - qa, n);
    }
  }

  /** Positions exactly n apart share a slot. */
  lemma SlotsMeet(a: nat, n: nat)
    requires n > 0
    ensures (a + n) % n == a % n
  {
    var b := a + n;
    var qa, qb, ra, rb := a / n, b / n, a % n, b % n;
    assert a == qa * n + ra && b == qb * n + rb;
    assert (qb - qa - 1) * n == qb * n - qa * n - n == ra - rb;
    assert (qa + 1 - qb) * n == qa * n + n - qb * n == rb - ra;
    NoSmallMultiple(qb - qa - 1, n);
    NoSmallMultiple(qa + 1 - qb, n);
  }

  lemma {:induction false} WholeTurns(a: nat, q: nat, n: nat)
    requires n > 0
    ensures q * n >= 0 && (a + q * n) % n == a % n
  {
    if q > 0 {
      WholeTurns(a, q - 1, n);
      assert q * n == (q - 1) * n + n;
      SlotsMeet(a + (q - 1) * n, n);
    }
  }

  /** Positions share a slot exactly when they are a whole number of turns apart. */
  lemma SameSlotIff(a: nat, b: nat, n: nat)
    requires a <= b && n > 0
    ensures a % n == b % n <==> (b - a) % n == 0
  {
    var q, r := (b - a) / n, (b - a) % n;
    assert b - a == q * n + r;
    WholeTurns(a, q, n);
    if r > 0 {
      SlotsDiffer(a + q * n, b, n);
    }
  }
}
