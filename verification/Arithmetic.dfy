/** Multiples, quotients and remainders. */
module Arithmetic {

  lemma MulDistributes(x: int, y: int, z: int)
    ensures (x + y) * z == x * z + y * z
  {
  }

  lemma MulMonotone(x: int, y: int, z: int)
    requires x <= y && 0 <= z
    ensures x * z <= y * z
  {
  }

  lemma Quotient(n: nat, d: nat)
    requires 0 < d
    ensures n == d * (n / d) + n % d && 0 <= n % d < d
    ensures d <= n ==> n / d >= 1
  {
    assert n / d == 0 ==> n == n % d;
  }

  /** The quotient is the number of the slice. */
  lemma QuotientIs(q: nat, k: nat, c: nat)
    requires k > 0 && c * k <= q < c * k + k
    ensures q / k == c
  {
    var d := q / k;
    assert q == d * k + q % k;
    if d < c {
      MulMonotone(d + 1, c, k);
      MulDistributes(d, 1, k);
    } else if c < d {
      MulMonotone(c + 1, d, k);
      MulDistributes(c, 1, k);
    }
  }

  lemma RemainderIs(q: nat, n: nat, t: nat, r: nat)
    requires 0 < n && q == t * n + r && r < n
    ensures q % n == r
  {
    var t', r' := q / n, q % n;
    assert q == t' * n + r';
    if t' < t {
      MulMonotone(t' + 1, t, n);
      MulDistributes(t', 1, n);
    } else if t < t' {
      MulMonotone(t + 1, t', n);
      MulDistributes(t, 1, n);
    }
  }

  // ---------- shares ----------

  /** A core's slice ends where the next begins, and within the whole. */
  lemma SliceFits(coreid: nat, ncores: nat, n: nat)
    requires coreid < ncores
    ensures coreid * (n / ncores) + n / ncores <= n
    ensures (coreid + 1) * (n / ncores) == coreid * (n / ncores) + n / ncores
  {
    MulMonotone(coreid + 1, ncores, n / ncores);
    MulDistributes(coreid, 1, n / ncores);
  }

  /** Of ncores neighbouring blocks, from the core's own on, only the first is the core's. */
  lemma OwnBlock(coreid: nat, ncores: nat, t: nat, q: nat)
    requires coreid < ncores && coreid + t * ncores <= q < coreid + t * ncores + ncores
    ensures q % ncores == coreid <==> q == coreid + t * ncores
  {
    var d := q - t * ncores;
    if d < ncores {
      RemainderIs(q, ncores, t, d);
    } else {
      MulDistributes(t, 1, ncores);
      RemainderIs(q, ncores, t + 1, d - ncores);
    }
  }
}
