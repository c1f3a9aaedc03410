/** Counting around a ring: the few facts about / and % that eviction and rotation need. */
module Modular {
  lemma {:induction false} Multiples(a: nat, b: nat, n: nat)
    requires a < b
    ensures a * n + n <= b * n
  {
    if a + 1 == b {
      assert b * n == a * n + n;
    } else {
      Multiples(a, b - 1, n);
      assert b * n == (b - 1) * n + n;
    }
  }

  lemma DivModUnique(x: nat, n: nat, q: nat, r: nat)
    requires r < n && x == q * n + r
    ensures x / n == q && x % n == r
  {
    var d := x / n;
    assert x == d * n + x % n;
    if q > d { Multiples(d, q, n); }
    if d > q { Multiples(q, d, n); }
  }

  /** One step forward. */
  lemma Successor(x: nat, n: nat)
    requires 0 < n
    ensures (x + 1) % n == if x % n + 1 == n then 0 else x % n + 1
    ensures (x + 1) / n == if x % n + 1 == n then x / n + 1 else x / n
  {
    var q, r := x / n, x % n;
    assert x == q * n + r;
    if r + 1 == n {
      assert (q + 1) * n == q * n + n;
      DivModUnique(x + 1, n, q + 1, 0);
    } else {
      DivModUnique(x + 1, n, q, r + 1);
    }
  }

  // ---------------------------------------------------------------------------- positions on a ring

  /** The position d steps after `from` on a ring of n. */
  function Forward(n: nat, from: nat, d: nat): (i: nat)
    requires from < n && d <= n
    ensures i < n
  {
    if from + d < n then from + d else from + d - n
  }

  /** Steps from `from` forward to `to` on a ring of n. */
  function Ring(n: nat, from: nat, to: nat): nat
    requires from < n && to < n
  {
    if from <= to then to - from else to + n - from
  }

  /** The position d steps after `from` is d steps away, and the only one that is. */
  lemma RingForward(n: nat, from: nat, d: nat)
    requires from < n && d < n
    ensures Ring(n, from, Forward(n, from, d)) == d
    ensures forall j :: 0 <= j < n && Ring(n, from, j) == d ==> j == Forward(n, from, d)
  {
  }

  lemma ForwardIsMod(n: nat, from: nat, d: nat)
    requires from < n && d <= n
    ensures (from + d) % n == Forward(n, from, d)
  {
    if from + d < n {
      DivModUnique(from + d, n, 0, from + d);
    } else {
      DivModUnique(from + d, n, 1, from + d - n);
    }
  }

  // ---------------------------------------------------------------------------- turns

  /** The slot reached k steps after `start`, any number of rounds on. */
  function Turn(start: nat, k: nat, n: nat): nat
    requires 0 < n
  {
    (start + k) % n
  }

  lemma TurnStep(start: nat, k: nat, n: nat)
    requires 0 < n
    ensures Turn(start, k + 1, n) == if Turn(start, k, n) + 1 == n then 0 else Turn(start, k, n) + 1
  {
    Successor(start + k, n);
  }

  lemma TurnZero(start: nat, n: nat)
    requires start < n
    ensures Turn(start, 0, n) == start
  {
    DivModUnique(start, n, 0, start);
  }

  /** k steps from the successor of `start` are k + 1 steps from `start`. */
  lemma {:induction false} TurnNext(start: nat, k: nat, n: nat)
    requires 0 < n
    ensures Turn((start + 1) % n, k, n) == Turn(start, k + 1, n)
  {
    if k == 0 {
      TurnZero((start + 1) % n, n);
    } else {
      TurnNext(start, k - 1, n);
      TurnStep((start + 1) % n, k - 1, n);
      TurnStep(start, k, n);
    }
  }

  /** Whole rounds do not matter. */
  lemma {:induction false} TurnIsForward(start: nat, k: nat, n: nat)
    requires start < n
    ensures Turn(start, k, n) == Forward(n, start, k % n)
  {
    if k == 0 {
      TurnZero(start, n);
      DivModUnique(0, n, 0, 0);
    } else {
      TurnIsForward(start, k - 1, n);
      TurnStep(start, k - 1, n);
      Successor(k - 1, n);
    }
  }
}
