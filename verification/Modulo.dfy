/** Remainders as slots of a ring. */
module Modulo {

  lemma {:induction false} MulStep(n: nat, a: int, b: int)
    requires a < b
    ensures n * a + n <= n * b
    decreases b - a
  {
    if b > a + 1 {
      MulStep(n, a, b - 1);
    }
    assert n * b == n * (b - 1) + n;
  }

  lemma QuotientUnique(n: nat, q: int, r: int, q': int, r': int)
    requires n * q + r == n * q' + r' && 0 <= r < n && 0 <= r' < n
    ensures q == q' && r == r'
  {
    if q < q' {
      MulStep(n, q, q');
    }
    if q' < q {
      MulStep(n, q', q);
    }
  }

  lemma RemainderIs(a: int, n: nat, q: int, r: nat)
    requires 0 <= r < n && a == n * q + r
    ensures a % n == r && a / n == q
  {
    QuotientUnique(n, a / n, a % n, q, r);
  }

  /** Two indices less than a full round apart are in different slots. */
  lemma SlotsDiffer(a: int, b: int, n: nat)
    requires 0 <= a < b < a + n
    ensures a % n != b % n
  {
    if a % n == b % n {
      if a / n < b / n {
        MulStep(n, a / n, b / n);
      } else if b / n < a / n {
        MulStep(n, b / n, a / n);
      }
    }
  }

  /** Stepping around the ring one slot at a time is taking the remainder of the next index. */
  lemma NextSlot(a: nat, n: nat)
    requires n > 0
    ensures (a % n + 1) % n == (a + 1) % n
  {
    var q, r := a / n, a % n;
    if r + 1 < n {
      RemainderIs(a + 1, n, q, r + 1);
    } else {
      assert n * (q + 1) == n * q + n;
      RemainderIs(a + 1, n, q + 1, 0);
    }
  }

  lemma SlotAfterRound(a: nat, n: nat)
    requires n > 0
    ensures (a + n) % n == a % n
  {
    assert n * (a / n + 1) == n * (a / n) + n;
    RemainderIs(a + n, n, a / n + 1, a % n);
  }

  /** Two indices at most a full round apart share a slot exactly when they are 0 or `n` apart. */
  lemma SameSlot(a: nat, b: nat, n: nat)
    requires n > 0 && a <= b <= a + n
    ensures a % n == b % n <==> b == a || b == a + n
  {
    if b == a + n {
      SlotAfterRound(a, n);
    } else if a < b {
      SlotsDiffer(a, b, n);
    }
  }
}
