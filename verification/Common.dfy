/** What several models share: options, a parameter of the kernel, sizes of sets and counters that
    wrap around. */
module Common {

  /** Blocks an operation may log (include/param.h). */
  const MAXOPBLOCKS: nat := 10

  datatype Option<+T> = None | Some(value: T)

  lemma SubsetSize<T>(a: set<T>, b: set<T>)
    requires a <= b
    ensures |a| <= |b|
  {
    assert b == a + (b - a);
  }

  lemma ModOf(q: nat, r: nat, m: nat)
    requires r < m
    ensures (q * m + r) % m == r
  {
    var n := q * m + r;
    var t := n / m;
    assert n == t * m + n % m;
    assert (q - t) * m == n % m - r;
    if q > t {
      MulAtLeast(q - t, m);
    } else if q < t {
      MulAtLeast(t - q, m);
    }
  }

  lemma MulAtLeast(k: nat, m: nat)
    requires k > 0
    ensures k * m >= m
  {
  }

  /** Numbers less than m apart are different modulo m. */
  lemma ModApart(n: nat, k: nat, m: nat)
    requires 0 < k < m
    ensures n % m != (n + k) % m
  {
    var q, r := n / m, n % m;
    assert n == q * m + r;
    if r + k < m {
      ModOf(q, r + k, m);
      assert n + k == q * m + (r + k);
    } else {
      ModOf(q + 1, r + k - m, m);
      assert n + k == (q + 1) * m + (r + k - m);
    }
  }
}
