/** Several cores working on one product: each adds the product into rows of its own, and together
    they add the whole of it, whichever core goes first. */
module Team {
  import opened Strided

  /** The whole of the square matrices A, B and C is there, row by row. */
  predicate Square(lda: nat, a: View, b: View, length: nat) {
    && a.base == b.base == 0 && a.ld == b.ld == lda
    && Conforms(lda, lda, lda, a, b, length, 0, lda)
  }

  /** `after` is `before` with the product added into the first n columns of exactly these rows. */
  ghost predicate AddsInto(before: seq<int>, after: seq<int>, a: View, b: View, ld: int, rows: set<int>, n: int,
                           p: int) {
    && |before| == |after|
    && forall q :: 0 <= q < |after| ==> after[q] == before[q] + ShareOfRows(a, b, q, ld, rows, n, p)
  }

  function ShareOfRows(a: View, b: View, q: int, ld: int, rows: set<int>, n: int, p: int): int {
    if ld > 0 && RowOf(q, 0, ld) in rows && ColOf(q, 0, ld) < n then Dot(a, b, RowOf(q, 0, ld), ColOf(q, 0, ld), 0, p)
        else 0
  }

  /** The rows lo <= r < hi. */
  function Rows(lo: int, hi: int): set<int> { set r | lo <= r < hi && Between(lo, r, hi) }

  predicate Between(lo: int, r: int, hi: int) { lo <= r < hi }

  lemma IntoNothing(s: seq<int>, a: View, b: View, ld: int, n: int, p: int)
    ensures AddsInto(s, s, a, b, ld, {}, n, p)
  {
  }

  lemma IntoBox(before: seq<int>, after: seq<int>, a: View, b: View, ld: int, lo: int, hi: int, n: int, p: int)
    ensures Adds(before, after, a, b, 0, ld, Box(lo, hi, 0, n, 0, p))
       <==> AddsInto(before, after, a, b, ld, Rows(lo, hi), n, p)
  {
    hide Dot;
    forall q | 0 <= q < |after|
      ensures ShareOfRows(a, b, q, ld, Rows(lo, hi), n, p) == Share(a, b, q, 0, ld, Box(lo, hi, 0, n, 0, p))
    {
    }
  }

  lemma IntoBoth(s0: seq<int>, s1: seq<int>, s2: seq<int>, a: View, b: View, ld: int, r1: set<int>, r2: set<int>,
                 n: int, p: int)
    requires r1 !! r2 && AddsInto(s0, s1, a, b, ld, r1, n, p) && AddsInto(s1, s2, a, b, ld, r2, n, p)
    ensures AddsInto(s0, s2, a, b, ld, r1 + r2, n, p)
  {
    hide Dot;
  }

  /** `order` names each of the cores 0..n-1 at exactly one place. */
  predicate OrderOf(order: seq<nat>, n: nat) {
    && |order| == n
    && (forall k :: 0 <= k < n ==> order[k] < n)
    && (forall core :: 0 <= core < n ==> core in order)
    && (forall k, l :: 0 <= k < l < n ==> order[k] != order[l])
  }

  /** No row has two owners, and the owned rows are the m rows of the product. */
  ghost predicate Partition(rows: seq<set<int>>, m: nat) {
    && (forall x, y :: 0 <= x < y < |rows| ==> rows[x] !! rows[y])
    && (forall r :: 0 <= r < m <==> Owned(rows, r))
  }

  ghost predicate Owned(rows: seq<set<int>>, r: int) { exists core :: 0 <= core < |rows| && r in rows[core] }

  /** The rows of the first k cores in the order. */
  function RowsOf(rows: seq<set<int>>, order: seq<nat>, k: nat): set<int>
    requires k <= |order| && forall i :: 0 <= i < |order| ==> order[i] < |rows|
  {
    if k == 0 then {} else RowsOf(rows, order, k - 1) + rows[order[k - 1]]
  }

  lemma {:induction false} RowsOfMembers(rows: seq<set<int>>, order: seq<nat>, k: nat, r: int)
    requires k <= |order| && forall i :: 0 <= i < |order| ==> order[i] < |rows|
    ensures r in RowsOf(rows, order, k) <==> exists i :: 0 <= i < k && r in rows[order[i]]
  {
    if k > 0 {
      RowsOfMembers(rows, order, k - 1, r);
    }
  }

  lemma {:induction false} SomeCoresAdd(
    states: seq<seq<int>>, order: seq<nat>, rows: seq<set<int>>, a: View, b: View, ld: int, m: nat, n: int, p: int,
    k: nat)
    requires OrderOf(order, |rows|) && Partition(rows, m) && |states| == |rows| + 1 && k <= |rows|
    requires forall i :: 0 <= i < |rows| ==> AddsInto(states[i], states[i + 1], a, b, ld, rows[order[i]], n, p)
    ensures AddsInto(states[0], states[k], a, b, ld, RowsOf(rows, order, k), n, p)
  {
    hide AddsInto;
    if k == 0 {
      IntoNothing(states[0], a, b, ld, n, p);
    } else {
      SomeCoresAdd(states, order, rows, a, b, ld, m, n, p, k - 1);
      var done := RowsOf(rows, order, k - 1);
      forall r | r in done
        ensures r !in rows[order[k - 1]]
      {
        RowsOfMembers(rows, order, k - 1, r);
      }
      IntoBoth(states[0], states[k - 1], states[k], a, b, ld, RowsOf(rows, order, k - 1), rows[order[k - 1]], n, p);
    }
  }

  /** Cores that own disjoint rows making up the whole together compute C += A*B, in any order. */
  lemma TeamAdds(
    states: seq<seq<int>>, order: seq<nat>, rows: seq<set<int>>, a: View, b: View, ld: int, m: nat, n: int, p: int)
    requires OrderOf(order, |rows|) && Partition(rows, m) && |states| == |rows| + 1
    requires forall i :: 0 <= i < |rows| ==> AddsInto(states[i], states[i + 1], a, b, ld, rows[order[i]], n, p)
    ensures AddsProduct(states[0], states[|rows|], a, b, 0, ld, m, n, p)
  {
    hide AddsInto;
    var all := RowsOf(rows, order, |rows|);
    SomeCoresAdd(states, order, rows, a, b, ld, m, n, p, |rows|);
    forall r
      ensures r in all <==> 0 <= r < m
    {
      RowsOfMembers(rows, order, |rows|, r);
      if 0 <= r < m {
        assert Owned(rows, r);
        var core :| 0 <= core < |rows| && r in rows[core];
        assert core in order;
        var i :| 0 <= i < |order| && order[i] == core;
        assert r in rows[order[i]];
      }
      if r in all {
        var i :| 0 <= i < |rows| && r in rows[order[i]];
        assert Owned(rows, r);
      }
    }
    assert all == Rows(0, m);
    IntoBox(states[0], states[|rows|], a, b, ld, 0, m, n, p);
  }
}
