/** Division facts with a variable divisor, and the larger and smaller of two reals. */
module Arithmetic {

  function Larger(a: real, b: real): real {
    if a < b then b else a
  }

  function Smaller(a: real, b: real): real {
    if a < b then a else b
  }

  lemma MulAtLeast(k: nat, a: int)
    requires a >= 1
    ensures k * a >= k
  {
    assert k * a == k + k * (a - 1);
    assert k * (a - 1) >= 0;
  }

  lemma ModOf(k: nat, q: nat, r: nat)
    requires r < k
    ensures (k * q + r) % k == r && (k * q + r) / k == q
  {
    var q', r' := (k * q + r) / k, (k * q + r) % k;
    assert k * q + r == k * q' + r';
    if q > q' {
      MulAtLeast(k, q - q');
    } else if q < q' {
      MulAtLeast(k, q' - q);
    }
  }

  /** Counting one further: the remainder grows, or wraps to 0 and the quotient grows. */
  lemma ModStep(k: nat, n: nat)
    requires k > 0
    ensures n % k + 1 < k ==> (n + 1) % k == n % k + 1 && (n + 1) / k == n / k
    ensures n % k + 1 == k ==> (n + 1) % k == 0 && (n + 1) / k == n / k + 1
  {
    var q, r := n / k, n % k;
    assert n == k * q + r;
    if r + 1 < k {
      ModOf(k, q, r + 1);
      assert n + 1 == k * q + (r + 1);
    } else {
      ModOf(k, q + 1, 0);
      assert k * (q + 1) == k * q + k;
    }
  }
}
