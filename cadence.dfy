/** Counting the steps of `1..n` that fire on a `step % k == 0` cadence. */
module Cadence {

  /** Number of steps `t` with `1 <= t <= n` and `t % k == 0`. */
  function Multiples(n: nat, k: nat): nat
    requires k > 0
  {
    if n == 0 then 0 else Multiples(n - 1, k) + (if n % k == 0 then 1 else 0)
  }

  /** Euclidean division is determined by quotient and remainder. */
  lemma DivModUnique(n: int, k: int, q: int, r: int)
    requires k > 0 && n == q * k + r && 0 <= r < k
    ensures n / k == q && n % k == r
  {
    var q', r' := n / k, n % k;
    assert n == q' * k + r' && 0 <= r' < k;
    var d := q - q';
    assert d * k == r' - r by {
      assert q * k - q' * k == r' - r;
      assert (q - q') * k == q * k - q' * k;
    }
    if d >= 1 {
      MulAtLeast(d, k);
    } else if d <= -1 {
      MulAtLeast(-d, k);
    }
  }

  lemma MulAtLeast(d: int, k: int)
    requires d >= 1 && k > 0
    ensures d * k >= k
  {
    assert d * k == (d - 1) * k + k;
    assert (d - 1) * k >= 0;
  }

  /** A step fires on the cadence `k` exactly `n / k` times in `1..n`. */
  lemma {:induction false} MultiplesCount(n: nat, k: nat)
    requires k > 0
    ensures Multiples(n, k) == n / k
  {
    if n > 0 {
      MultiplesCount(n - 1, k);
      var q, r := (n - 1) / k, (n - 1) % k;
      assert n - 1 == q * k + r;
      if r == k - 1 {
        DivModUnique(n, k, q + 1, 0);
      } else {
        DivModUnique(n, k, q, r + 1);
      }
    }
  }
}
