/** riscv-tests/mt/ck_matmul.c: the loop `for (ii = start; ii != start || first; ii = (bsize+ii) % lda)`
    on its own: where it goes, that it always ends, and which columns it covers how often. */
module WrapLoop {
  import opened Arithmetic
  import opened Strided
  import opened Team

  const BSIZE := 16

  /** The block visited at step t. */
  function At(start: nat, lda: nat, t: nat): nat
    requires lda > 0
  {
    (start + BSIZE * t) % lda
  }

  lemma Euclid(x: nat, m: nat) returns (q: nat, r: nat)
    requires m > 0
    ensures x == q * m + r && r < m && x % m == r
  {
    q, r := x / m, x % m;
  }

  lemma RemainderOfSum(x: nat, y: nat, m: nat)
    requires m > 0
    ensures (x % m + y) % m == (x + y) % m
  {
    var q, r := Euclid(x, m);
    var q', r' := Euclid(r + y, m);
    MulDistributes(q, q', m);
    RemainderIs(x + y, m, q + q', r');
  }

  lemma AtNext(start: nat, lda: nat, t: nat)
    requires lda > 0
    ensures At(start, lda, t + 1) == (BSIZE + At(start, lda, t)) % lda
  {
    RemainderOfSum(start + BSIZE * t, BSIZE, lda);
  }

  /** After lda steps the loop is back where it started, if not before. */
  lemma AtEnd(start: nat, lda: nat)
    requires start < lda
    ensures At(start, lda, 0) == start && At(start, lda, lda) == start
  {
    RemainderIs(start, lda, 0, start);
    RemainderIs(start + BSIZE * lda, lda, BSIZE, start);
  }

  /** The first step from t on at which the loop is back. */
  function BackAt(start: nat, lda: nat, t: nat): (r: nat)
    requires start < lda && t <= lda
    ensures t <= r <= lda && At(start, lda, r) == start && forall u :: t <= u < r ==> At(start, lda, u) != start
    decreases lda - t
  {
    AtEnd(start, lda);
    if At(start, lda, t) == start then t else BackAt(start, lda, t + 1)
  }

  /** The blocks visited, in order. */
  function Visits(start: nat, lda: nat): seq<nat>
    requires start < lda
  {
    seq(BackAt(start, lda, 1), t requires 0 <= t => At(start, lda, t))
  }

  /** The loop ends, for every lda and every start block, having visited exactly these blocks. */
  method VisitAll(start: nat, lda: nat) returns (visited: seq<nat>)
    requires start < lda
    ensures visited == Visits(start, lda)
  {
    var first := true;
    var ii := start;
    visited := [];
    AtEnd(start, lda);
    hide At;
    while ii != start || first
      invariant first <==> visited == []
      invariant |visited| <= BackAt(start, lda, 1) && visited == Visits(start, lda)[..|visited|]
      invariant ii == At(start, lda, |visited|)
      decreases lda - |visited|
    {
      first := false;
      AtNext(start, lda, |visited|);
      visited := visited + [ii];
      ii := (BSIZE + ii) % lda;
    }
  }

  // ---------- how often a column is covered ----------

  predicate Covered(ii: int, c: int) { ii <= c < ii + BSIZE }

  function Times(visited: seq<nat>, c: int): nat {
    if visited == [] then 0
    else Times(visited[..|visited| - 1], c) + if Covered(visited[|visited| - 1], c) then 1 else 0
  }

  lemma TimesNext(visited: seq<nat>, t: nat, c: int)
    requires t < |visited|
    ensures Times(visited[..t + 1], c) == Times(visited[..t], c) + if Covered(visited[t], c) then 1 else 0
  {
    assert visited[..t + 1][..t] == visited[..t];
  }

  lemma {:induction false} TimesOf(visited: seq<nat>, c: int, n: nat, t: nat)
    requires n <= |visited| && t < |visited| && Covered(visited[t], c)
    requires forall u :: 0 <= u < |visited| && u != t ==> !Covered(visited[u], c)
    ensures Times(visited[..n], c) == if t < n then 1 else 0
  {
    if n > 0 {
      TimesOf(visited, c, n - 1, t);
      TimesNext(visited, n - 1, c);
    }
  }

  lemma {:induction false} TimesTwice(visited: seq<nat>, c: int, n: nat, t: nat, u: nat)
    requires n <= |visited| && t < |visited| && u < |visited| && t != u && Covered(visited[t], c)
      && Covered(visited[u], c)
    ensures Times(visited[..n], c) >= (if t < n then 1 else 0) + if u < n then 1 else 0
  {
    if n > 0 {
      TimesTwice(visited, c, n - 1, t, u);
      TimesNext(visited, n - 1, c);
    }
  }

  /** Every column is covered once. */
  predicate EachOnce(start: nat, lda: nat)
    requires start < lda
  {
    forall c :: 0 <= c < lda ==> Times(Visits(start, lda), c) == 1
  }

  /** The sizes for which the blocks fit. */
  predicate Fits(lda: nat) { lda % BSIZE == 0 || lda == 8 }

  // ---------- sizes that are multiples of 16 ----------

  /** The number of the block visited at step t, of g blocks. */
  lemma BlockAt(v: nat, g: nat, t: nat)
    requires v < g && t < g
    ensures At(BSIZE * v, BSIZE * g, t) == BSIZE * (if v + t < g then v + t else v + t - g)
  {
    if v + t < g {
      RemainderIs(BSIZE * v + BSIZE * t, BSIZE * g, 0, BSIZE * (v + t));
    } else {
      RemainderIs(BSIZE * v + BSIZE * t, BSIZE * g, 1, BSIZE * (v + t - g));
    }
  }

  lemma RoundOf(v: nat, g: nat)
    requires v < g
    ensures BackAt(BSIZE * v, BSIZE * g, 1) == g
  {
    var T := BackAt(BSIZE * v, BSIZE * g, 1);
    if T < g {
      BlockAt(v, g, T);
    } else {
      RemainderIs(BSIZE * v + BSIZE * g, BSIZE * g, 1, BSIZE * v);
      assert At(BSIZE * v, BSIZE * g, g) == BSIZE * v;
    }
  }

  lemma OnceSixteen(v: nat, g: nat, c: nat)
    requires v < g && c < BSIZE * g
    ensures Times(Visits(BSIZE * v, BSIZE * g), c) == 1
  {
    var visited := Visits(BSIZE * v, BSIZE * g);
    RoundOf(v, g);
    var b := c / BSIZE;
    var t := if v <= b then b - v else b + g - v;
    forall u | 0 <= u < g
      ensures Covered(visited[u], c) <==> u == t
    {
      BlockAt(v, g, u);
    }
    TimesOf(visited, c, g, t);
    assert visited[..g] == visited;
  }

  // ---------- odd multiples of 8 ----------

  lemma OnceEight(c: nat)
    requires c < 8
    ensures Times(Visits(0, 8), c) == 1
  {
    assert At(0, 8, 1) == 0;
    var visited := Visits(0, 8);
    TimesOf(visited, c, 1, 0);
    assert visited[..1] == visited;
  }

  lemma NoOddMultiple(n: nat, q: nat, t: nat)
    requires q % 2 == 1 && 0 < t < q
    ensures 2 * t != n * q
  {
    if n >= 2 {
      MulMonotone(2, n, q);
    } else {
      assert n == 0 || n == 1;
    }
  }

  lemma NotBackYet(v: nat, q: nat, t: nat)
    requires q % 2 == 1 && 0 < t < q
    ensures At(BSIZE * v, 8 * q, t) != BSIZE * v
  {
    var n, r := Euclid(BSIZE * v + BSIZE * t, 8 * q);
    assert n * (8 * q) == 8 * (n * q);
    NoOddMultiple(n, q, t);
  }

  /** With lda = 8q for an odd q the loop takes q steps. */
  lemma OddRound(v: nat, q: nat)
    requires q % 2 == 1 && 2 * v < q
    ensures BackAt(BSIZE * v, 8 * q, 1) == q
  {
    var T := BackAt(BSIZE * v, 8 * q, 1);
    RemainderIs(BSIZE * v + BSIZE * q, 8 * q, 2, BSIZE * v);
    assert At(BSIZE * v, 8 * q, q) == BSIZE * v;
    hide At;
    if T < q {
      NotBackYet(v, q, T);
    }
  }

  /** From three blocks on, column 8 is covered by the block at 0 and by the block at 8. */
  lemma OddTwice(v: nat, q: nat)
    requires q % 2 == 1 && 2 * v < q && q >= 3
    ensures Times(Visits(BSIZE * v, 8 * q), 8) >= 2
  {
    var visited := Visits(BSIZE * v, 8 * q);
    OddRound(v, q);
    var t, u := if v == 0 then 0 else q - v, (q + 1) / 2 - v;
    if v == 0 {
      RemainderIs(0, 8 * q, 0, 0);
    } else {
      RemainderIs(BSIZE * v + BSIZE * t, 8 * q, 2, 0);
    }
    RemainderIs(BSIZE * v + BSIZE * u, 8 * q, 1, 8);
    assert visited[t] == 0 && visited[u] == 8;
    TimesTwice(visited, 8, q, t, u);
    assert visited[..q] == visited;
  }

  lemma OnceEven(v: nat, g: nat)
    requires v < g
    ensures EachOnce(BSIZE * v, BSIZE * g)
  {
    hide Times, Visits;
    forall c | 0 <= c < BSIZE * g
      ensures Times(Visits(BSIZE * v, BSIZE * g), c) == 1
    {
      OnceSixteen(v, g, c);
    }
  }

  lemma OnceOne()
    ensures EachOnce(0, 8)
  {
    hide Times, Visits;
    forall c | 0 <= c < 8
      ensures Times(Visits(0, 8), c) == 1
    {
      OnceEight(c);
    }
  }

  /** Exactly when the loop covers every column once. */
  lemma OnceIff(v: nat, lda: nat)
    requires lda % 8 == 0 && BSIZE * v < lda
    ensures EachOnce(BSIZE * v, lda) <==> Fits(lda)
  {
    var q := lda / 8;
    assert lda == 8 * q;
    hide Times, Visits;
    if q % 2 == 0 {
      OnceEven(v, q / 2);
    } else if q == 1 {
      OnceOne();
    } else {
      OddTwice(v, q);
    }
  }
}
