/** riscv-tests/benchmarks/mm: mm_cb, the cache-blocked product over packed operands, and mm.

    a, b and c are packed into CBM x CBK, CBK x CBN and CBM x CBN blocks, the blocks are
    multiplied by mm_rb, what the blocks do not cover is multiplied in place, and the packed c
    is copied back. */
module CacheBlock {
  import opened Arithmetic
  import opened Strided
  import opened RegisterBlock
  import opened Packing

  const CBM := 24
  const CBN := 25
  const CBK := 24

  function Min(x: int, y: int): int { if x < y then x else y }

  // ---------- one block of packed c ----------

  /** Block t of packed c is the block of c0 at (i, j) plus the first k terms of its products. */
  ghost predicate Sums(s: seq<int>, t: int, c0: View, a: View, b: View, i: int, j: int, k: int) {
    forall r, c :: 0 <= r < CBM && 0 <= c < CBN ==>
      Block(s, t, CBM, CBN).At(r, c) == c0.At(i + r, j + c) + Dot(a, b, i + r, j + c, 0, k)
  }

  /** Only block t changed. */
  ghost predicate OnlyBlock(s: seq<int>, s': seq<int>, t: int) {
    && |s| == |s'|
    && forall q :: 0 <= q < |s| && !(t * (CBM * CBN) <= q < (t + 1) * (CBM * CBN)) ==> s'[q] == s[q]
  }

  /** The operands a', b' multiply to the slice of inner indices k..k+len of the block at (i, j). */
  ghost predicate SameProducts(a': View, b': View, a: View, b: View, i: int, j: int, k: int, len: nat) {
    forall r, c :: 0 <= r < CBM && 0 <= c < CBN ==>
      Dot(a', b', r, c, 0, len) == Dot(a, b, i + r, j + c, k, k + len)
  }

  lemma ShiftedProducts(a: View, b: View, i: int, j: int, k: int, len: nat)
    ensures SameProducts(a.Shift(i, k), b.Shift(k, j), a, b, i, j, k, len)
  {
    forall r, c | 0 <= r < CBM && 0 <= c < CBN
      ensures Dot(a.Shift(i, k), b.Shift(k, j), r, c, 0, len) == Dot(a, b, i + r, j + c, k, k + len)
    {
      DotShift(a, b, i, j, k, r, c, len);
    }
  }

  lemma PackedProducts(a1: seq<int>, ta: int, b1: seq<int>, tb: int, a: View, b: View, i: int, j: int, k: int)
    requires Holds(a1, ta, CBM, CBK, a, i, k) && Holds(b1, tb, CBK, CBN, b, k, j)
    ensures SameProducts(Block(a1, ta, CBM, CBK), Block(b1, tb, CBK, CBN), a, b, i, j, k, CBK)
  {
    hide View.At, Dot, Block;
    var a', b' := Block(a1, ta, CBM, CBK), Block(b1, tb, CBK, CBN);
    forall r, c | 0 <= r < CBM && 0 <= c < CBN
      ensures Dot(a', b', r, c, 0, CBK) == Dot(a, b, i + r, j + c, k, k + CBK)
    {
      forall u | 0 <= u < 0 + CBK
        ensures a'.At(r, u) == a.At(i + r, u - 0 + k) && b'.At(u, c) == b.At(u - 0 + k, j + c)
      {
        assert a'.At(r, u) == a.At(i + r, k + u);
        assert b'.At(u, c) == b.At(k + u, j + c);
      }
      DotCongruent(a', b', r, c, 0, a, b, i + r, j + c, k, CBK);
    }
  }

  lemma BlockAt(s: seq<int>, t: nat, r: int, c: int)
    requires (t + 1) * (CBM * CBN) <= |s| && 0 <= r < CBM && 0 <= c < CBN
    ensures Block(s, t, CBM, CBN).At(r, c) == s[t * (CBM * CBN) + r * CBN + c]
  {
  }

  lemma BlockStep(s: seq<int>, s': seq<int>, t: nat, a': View, b': View, len: nat, r: int, c: int)
    requires (t + 1) * (CBM * CBN) <= |s| && 0 <= r < CBM && 0 <= c < CBN
    requires AddsProduct(s, s', a', b', t * (CBM * CBN), CBN, CBM, CBN, len)
    ensures Block(s', t, CBM, CBN).At(r, c) == Block(s, t, CBM, CBN).At(r, c) + Dot(a', b', r, c, 0, len)
  {
    hide View.At, Dot;
    BlockAt(s, t, r, c);
    BlockAt(s', t, r, c);
    Coordinates(t * (CBM * CBN) + r * CBN + c, t * (CBM * CBN), CBN, r, c);
  }

  lemma OnlyBlockAdded(s: seq<int>, s': seq<int>, t: nat, a': View, b': View, len: nat)
    requires AddsProduct(s, s', a', b', t * (CBM * CBN), CBN, CBM, CBN, len)
    ensures OnlyBlock(s, s', t)
  {
    hide View.At, Dot;
  }

  /** Multiplying operands with the right products into block t extends its sums, and touches no
      other block. */
  lemma SumsStep(s: seq<int>, s': seq<int>, t: nat, c0: View, a': View, b': View, a: View, b: View,
                 i: int, j: int, k: nat, len: nat)
    requires (t + 1) * (CBM * CBN) <= |s|
    requires Sums(s, t, c0, a, b, i, j, k) && SameProducts(a', b', a, b, i, j, k, len)
    requires AddsProduct(s, s', a', b', t * (CBM * CBN), CBN, CBM, CBN, len)
    ensures Sums(s', t, c0, a, b, i, j, k + len) && OnlyBlock(s, s', t)
  {
    hide View.At, Dot, Adds, OnlyBlock, Block;
    OnlyBlockAdded(s, s', t, a', b', len);
    forall r, c | 0 <= r < CBM && 0 <= c < CBN
      ensures Block(s', t, CBM, CBN).At(r, c) == c0.At(i + r, j + c) + Dot(a, b, i + r, j + c, 0, k + len)
    {
      BlockStep(s, s', t, a', b', len, r, c);
      DotSplit(a, b, i + r, j + c, 0, k, k + len);
      assert Block(s, t, CBM, CBN).At(r, c) == c0.At(i + r, j + c) + Dot(a, b, i + r, j + c, 0, k);
      assert Dot(a', b', r, c, 0, len) == Dot(a, b, i + r, j + c, k, k + len);
    }
  }

  lemma BlockKept(s: seq<int>, s': seq<int>, t: nat, t': nat, r: int, c: int)
    requires OnlyBlock(s, s', t) && t' != t && 0 <= r < CBM && 0 <= c < CBN
    ensures Block(s', t', CBM, CBN).At(r, c) == Block(s, t', CBM, CBN).At(r, c)
  {
  }

  /** Sums of a block survive changes to another block. */
  lemma SumsKept(s: seq<int>, s': seq<int>, t: nat, t': nat, c0: View, a: View, b: View, i: int, j: int, k: int)
    requires OnlyBlock(s, s', t) && t' != t && Sums(s, t', c0, a, b, i, j, k)
    ensures Sums(s', t', c0, a, b, i, j, k)
  {
    hide View.At, Dot, OnlyBlock, Block;
    forall r, c | 0 <= r < CBM && 0 <= c < CBN
      ensures Block(s', t', CBM, CBN).At(r, c) == c0.At(i + r, j + c) + Dot(a, b, i + r, j + c, 0, k)
    {
      BlockKept(s, s', t, t', r, c);
      assert Block(s, t', CBM, CBN).At(r, c) == c0.At(i + r, j + c) + Dot(a, b, i + r, j + c, 0, k);
    }
  }

  // ---------- multiplying packed blocks ----------

  /** mm_rb on whole packed blocks: one iteration of the loop over k. */
  method PackedStep(a1: View, b1: View, c1: array<int>, at: int, ghost t: nat,
                    ghost c0: View, ghost a: View, ghost b: View, ghost i: int, ghost j: int, ghost k: nat, len: nat)
    requires at == t * (CBM * CBN) && (t + 1) * (CBM * CBN) <= c1.Length
    requires a1.Fits(CBM, len) && b1.Fits(len, CBN) && SameProducts(a1, b1, a, b, i, j, k, len)
    requires Sums(c1[..], t, c0, a, b, i, j, k)
    modifies c1
    ensures Sums(c1[..], t, c0, a, b, i, j, k + len) && OnlyBlock(old(c1[..]), c1[..], t)
  {
    hide SameProducts, Sums, OnlyBlock, Adds;
    MmRb(CBM, CBN, len, a1, b1, c1, at, CBN);
    SumsStep(old(c1[..]), c1[..], t, c0, a1, b1, a, b, i, j, k, len);
  }

  /** The packed operands and what they hold. */
  ghost predicate PackedOperands(nmb: int, nnb: int, npb: int, a: View, b: View, a1: seq<int>, b1: seq<int>) {
    && Packed(a1, nmb * npb, npb, CBM, CBK, a) && |a1| == (nmb * npb) * (CBM * CBK)
    && Packed(b1, npb * nnb, nnb, CBK, CBN, b) && |b1| == (npb * nnb) * (CBK * CBN)
  }

  /** The packed blocks multiplied for block (I, J) and inner block K. */
  lemma PackedPair(nmb: nat, nnb: nat, npb: nat, a: View, b: View, a1: seq<int>, b1: seq<int>, bi: nat, bj: nat,
                   bk: nat)
    requires PackedOperands(nmb, nnb, npb, a, b, a1, b1) && bi < nmb && bj < nnb && bk < npb
    ensures SameProducts(Block(a1, npb * bi + bk, CBM, CBK), Block(b1, nnb * bk + bj, CBK, CBN), a, b, bi * CBM,
                         bj * CBN, bk * CBK, CBK)
    ensures Block(a1, npb * bi + bk, CBM, CBK).Fits(CBM, CBK) && Block(b1, nnb * bk + bj, CBK, CBN).Fits(CBK, CBN)
  {
    hide Holds, SameProducts;
    BlockNumber(npb, nmb, bi, bk);
    BlockNumber(nnb, npb, bk, bj);
    PackedProducts(a1, npb * bi + bk, b1, nnb * bk + bj, a, b, bi * CBM, bj * CBN, bk * CBK);
  }

  /** The body of the j loop of mm_cb: block (I, J) of packed c over all inner indices. */
  method CbBlock(ghost nmb: nat, nnb: nat, npb: nat, p: nat, a: View, b: View, a1: seq<int>, b1: seq<int>,
                 c1: array<int>, ghost c0: View, i: nat, j: nat, ghost bi: nat, ghost bj: nat, ghost t: nat)
    requires PackedOperands(nmb, nnb, npb, a, b, a1, b1) && npb == p / CBK
    requires bi < nmb && bj < nnb && i == bi * CBM && j == bj * CBN && t == nnb * bi + bj
    requires (t + 1) * (CBM * CBN) <= c1.Length
    requires a.Shift(i, 0).Fits(CBM, p) && b.Shift(0, j).Fits(p, CBN)
    requires Sums(c1[..], t, c0, a, b, i, j, 0)
    modifies c1
    ensures Sums(c1[..], t, c0, a, b, i, j, p) && OnlyBlock(old(c1[..]), c1[..], t)
  {
    hide SameProducts, Sums, OnlyBlock, Adds, View.Fits, PackedOperands;
    OnlyBlockStart(c1[..], t);
    var pb := npb * CBK;
    var k := 0;
    ghost var bk := 0;
    while k < pb
      invariant 0 <= bk <= npb && k == bk * CBK
      invariant Sums(c1[..], t, c0, a, b, i, j, k) && OnlyBlock(old(c1[..]), c1[..], t)
    {
      ghost var mid := c1[..];
      PackedPair(nmb, nnb, npb, a, b, a1, b1, bi, bj, bk);
      PackedStep(Block(a1, npb * (i / CBM) + k / CBK, CBM, CBK), Block(b1, nnb * (k / CBK) + j / CBN, CBK, CBN),
                 c1, (nnb * (i / CBM) + j / CBN) * (CBM * CBN), t, c0, a, b, i, j, k, CBK);
      OnlyBlockTwice(old(c1[..]), mid, c1[..], t);
      k, bk := k + CBK, bk + 1;
    }
    if pb < p {
      ghost var mid := c1[..];
      ShiftedProducts(a, b, i, j, pb, p - pb);
      Remainder(a, b, p, i, j, pb);
      PackedStep(a.Shift(i, pb), b.Shift(pb, j), c1, (nnb * (i / CBM) + j / CBN) * (CBM * CBN), t, c0, a, b, i, j, pb,
                 p - pb);
      OnlyBlockTwice(old(c1[..]), mid, c1[..], t);
    }
  }

  lemma Remainder(a: View, b: View, p: nat, i: nat, j: nat, pb: nat)
    requires a.Shift(i, 0).Fits(CBM, p) && b.Shift(0, j).Fits(p, CBN) && pb <= p
    ensures a.Shift(i, pb).Fits(CBM, p - pb) && b.Shift(pb, j).Fits(p - pb, CBN)
  {
    FitsShift(a.Shift(i, 0), CBM, p, 0, pb, CBM, p - pb);
    FitsShift(b.Shift(0, j), p, CBN, pb, 0, p - pb, CBN);
    ShiftShift(a, i, 0, 0, pb);
    ShiftShift(b, 0, j, pb, 0);
  }

  lemma OnlyBlockStart(s: seq<int>, t: int)
    ensures OnlyBlock(s, s, t)
  {
  }

  lemma OnlyBlockTwice(s0: seq<int>, s1: seq<int>, s2: seq<int>, t: int)
    requires OnlyBlock(s0, s1, t) && OnlyBlock(s1, s2, t)
    ensures OnlyBlock(s0, s2, t)
  {
  }

  // ---------- the loops over blocks ----------

  /** Packed c after the blocks below `done` have been multiplied and the others only packed. */
  ghost predicate AllSums(s: seq<int>, total: int, across: int, c0: View, a: View, b: View, done: int, p: int) {
    across > 0 ==>
      forall t :: 0 <= t < total ==>
        Sums(s, t, c0, a, b, t / across * CBM, t % across * CBN, if t < done then p else 0)
  }

  lemma AllSumsStart(s: seq<int>, total: int, across: int, c0: View, a: View, b: View, p: int)
    requires Packed(s, total, across, CBM, CBN, c0)
    ensures AllSums(s, total, across, c0, a, b, 0, p)
  {
    hide View.At, Block;
    if across > 0 {
      forall t | 0 <= t < total
        ensures Sums(s, t, c0, a, b, t / across * CBM, t % across * CBN, 0)
      {
        assert Holds(s, t, CBM, CBN, c0, t / across * CBM, t % across * CBN);
      }
    }
  }

  /** Finishing block (I, J), the next in order. */
  lemma AllSumsStep(s: seq<int>, s': seq<int>, nmb: nat, nnb: nat, c0: View, a: View, b: View, bi: nat, bj: nat, p: int)
    requires bi < nmb && bj < nnb
    requires AllSums(s, nmb * nnb, nnb, c0, a, b, nnb * bi + bj, p)
    requires OnlyBlock(s, s', nnb * bi + bj) && Sums(s', nnb * bi + bj, c0, a, b, bi * CBM, bj * CBN, p)
    ensures AllSums(s', nmb * nnb, nnb, c0, a, b, nnb * bi + bj + 1, p)
  {
    hide Sums, OnlyBlock;
    BlockNumber(nnb, nmb, bi, bj);
    var done := nnb * bi + bj;
    forall t | 0 <= t < nmb * nnb
      ensures Sums(s', t, c0, a, b, t / nnb * CBM, t % nnb * CBN, if t < done + 1 then p else 0)
    {
      if t != done {
        SumsKept(s, s', done, t, c0, a, b, t / nnb * CBM, t % nnb * CBN, if t < done then p else 0);
      }
    }
  }

  /** What the block about to be multiplied needs. */
  lemma BlockReady(s: seq<int>, nmb: nat, nnb: nat, c0: View, a: View, b: View, bi: nat, bj: nat, p: int)
    requires bi < nmb && bj < nnb && |s| == (nmb * nnb) * (CBM * CBN)
    requires AllSums(s, nmb * nnb, nnb, c0, a, b, nnb * bi + bj, p)
    ensures Sums(s, nnb * bi + bj, c0, a, b, bi * CBM, bj * CBN, 0)
    ensures 0 <= nnb * bi + bj && (nnb * bi + bj + 1) * (CBM * CBN) <= |s|
  {
    hide Sums;
    BlockNumber(nnb, nmb, bi, bj);
  }

  /** The j loop of mm_cb for block row I: every block of packed c in the row is multiplied. */
  method CbRow(ghost nmb: nat, nnb: nat, npb: nat, ghost m: nat, ghost n: nat, p: nat, a: View, b: View, a1: seq<int>,
               b1: seq<int>,
               c1: array<int>, ghost c0: View, i: nat, ghost bi: nat, ghost done: nat)
    requires PackedOperands(nmb, nnb, npb, a, b, a1, b1) && npb == p / CBK
    requires c1.Length == (nmb * nnb) * (CBM * CBN) && nmb == m / CBM && nnb == n / CBN
    requires a.Fits(m, p) && b.Fits(p, n)
    requires bi < nmb && i == bi * CBM && done == nnb * bi
    requires AllSums(c1[..], nmb * nnb, nnb, c0, a, b, done, p)
    modifies c1
    ensures AllSums(c1[..], nmb * nnb, nnb, c0, a, b, done + nnb, p)
  {
    hide Sums, OnlyBlock, PackedOperands, AllSums, View.Fits;
    var nb := nnb * CBN;
    var j := 0;
    ghost var bj := 0;
    while j < nb
      invariant 0 <= bj <= nnb && j == bj * CBN
      invariant AllSums(c1[..], nmb * nnb, nnb, c0, a, b, done + bj, p)
    {
      ghost var mid := c1[..];
      BlockReady(mid, nmb, nnb, c0, a, b, bi, bj, p);
      FitsShift(a, m, p, i, 0, CBM, p);
      FitsShift(b, p, n, 0, j, p, CBN);
      CbBlock(nmb, nnb, npb, p, a, b, a1, b1, c1, c0, i, j, bi, bj, done + bj);
      AllSumsStep(mid, c1[..], nmb, nnb, c0, a, b, bi, bj, p);
      j, bj := j + CBN, bj + 1;
    }
  }

  /** mm_rb over the inner index in steps of CBK, on the rows x columns block at (i, j) of c. */
  method InPlace(ghost m: nat, ghost n: nat, p: nat, a: View, b: View, c: array<int>, co: int, ldc: nat,
                 i: nat, j: nat, rows: nat, columns: nat)
    requires Conforms(m, n, p, a, b, c.Length, co, ldc) && i + rows <= m && j + columns <= n
    modifies c
    ensures Adds(old(c[..]), c[..], a, b, co, ldc, Box(i, i + rows, j, j + columns, 0, p))
  {
    hide Adds;
    ghost var box := Box(i, i + rows, j, j + columns, 0, p);
    AddsNothing(c[..], a, b, co, ldc, box.(k1 := 0));
    var k := 0;
    while k < p
      invariant 0 <= k
      invariant Adds(old(c[..]), c[..], a, b, co, ldc, box.(k1 := Min(k, p)))
    {
      ghost var mid := c[..];
      var len := Min(p - k, CBK);
      ConformsBlock(m, n, p, a, b, c.Length, co, ldc, i, j, k, rows, columns, len);
      MmRb(rows, columns, len, a.Shift(i, k), b.Shift(k, j), c, co + i * ldc + j, ldc);
      AddsBlock(mid, c[..], a, b, co, ldc, i, j, k, rows, columns, len);
      AddsSlices(old(c[..]), mid, c[..], a, b, co, ldc, box.(k1 := k + len), k);
      k := k + CBK;
    }
  }

  // ---------- copying packed c back ----------

  /** s1 still has the cells of s0 in a rectangle of the window. */
  ghost predicate Agree(s0: seq<int>, s1: seq<int>, base: int, ld: int, i0: int, i1: int, j0: int, j1: int) {
    && |s0| == |s1|
    && (ld > 0 ==>
          forall q :: 0 <= q < |s1| && i0 <= RowOf(q, base, ld) < i1 && j0 <= ColOf(q, base, ld) < j1 ==>
            s1[q] == s0[q])
  }

  /** Multiplications outside a rectangle leave it alone. */
  lemma AgreeAfterAdds(s0: seq<int>, s1: seq<int>, s2: seq<int>, a: View, b: View, base: int, ld: int, x: Box,
                       i0: int, i1: int, j0: int, j1: int)
    requires Agree(s0, s1, base, ld, i0, i1, j0, j1) && Adds(s1, s2, a, b, base, ld, x)
    requires x.i1 <= i0 || i1 <= x.i0 || x.j1 <= j0 || j1 <= x.j0
    ensures Agree(s0, s2, base, ld, i0, i1, j0, j1)
  {
    hide Dot;
  }

  /** c0 with the products of its first mb rows and nb columns added: what finished blocks hold. */
  ghost function Product(s0: seq<int>, base: int, ld: int, a: View, b: View, mb: int, nb: int, p: int): View {
    View(seq(|s0|, q requires 0 <= q < |s0| => s0[q] + Share(a, b, q, base, ld, Box(0, mb, 0, nb, 0, p))), base, ld)
  }

  lemma ProductAt(s0: seq<int>, base: int, ld: int, a: View, b: View, mb: int, nb: int, p: int, i: int, j: int)
    requires 0 <= i < mb && 0 <= j < nb <= ld && 0 <= base + i * ld + j < |s0|
    ensures Product(s0, base, ld, a, b, mb, nb, p).At(i, j) == View(s0, base, ld).At(i, j) + Dot(a, b, i, j, 0, p)
  {
    hide Dot;
    Coordinates(base + i * ld + j, base, ld, i, j);
  }

  /** Every block of packed c has been multiplied over all p inner indices. */
  ghost predicate Finished(s: seq<int>, nmb: int, nnb: int, c0: View, a: View, b: View, p: int) {
    |s| == (nmb * nnb) * (CBM * CBN) && AllSums(s, nmb * nnb, nnb, c0, a, b, nmb * nnb, p)
  }

  /** Finished blocks hold the product. */
  lemma FinishedHolds(s: seq<int>, t: int, s0: seq<int>, base: int, ld: nat, a: View, b: View, mb: nat, nb: nat,
                      p: int, i: nat, j: nat)
    requires Sums(s, t, View(s0, base, ld), a, b, i, j, p) && i + CBM <= mb && j + CBN <= nb
    requires Target(|s0|, base, ld, mb, nb)
    ensures Holds(s, t, CBM, CBN, Product(s0, base, ld, a, b, mb, nb, p), i, j)
  {
    hide View.At, Dot, Product, Block;
    forall r, c | 0 <= r < CBM && 0 <= c < CBN
      ensures Block(s, t, CBM, CBN).At(r, c) == Product(s0, base, ld, a, b, mb, nb, p).At(i + r, j + c)
    {
      TargetBlock(|s0|, base, ld, mb, nb, i + r, j + c, 1, 1);
      ProductAt(s0, base, ld, a, b, mb, nb, p, i + r, j + c);
      assert Block(s, t, CBM, CBN).At(r, c) == View(s0, base, ld).At(i + r, j + c) + Dot(a, b, i + r, j + c, 0, p);
    }
  }

  lemma FinishedPacked(s: seq<int>, nmb: nat, nnb: nat, s0: seq<int>, base: int, ld: nat, a: View, b: View, p: int)
    requires Finished(s, nmb, nnb, View(s0, base, ld), a, b, p) && Target(|s0|, base, ld, nmb * CBM, nnb * CBN)
    ensures Packed(s, nmb * nnb, nnb, CBM, CBN, Product(s0, base, ld, a, b, nmb * CBM, nnb * CBN, p))
  {
    hide Sums, Holds, Product, Target;
    if nnb > 0 {
      forall t | 0 <= t < nmb * nnb
        ensures Holds(s, t, CBM, CBN, Product(s0, base, ld, a, b, nmb * CBM, nnb * CBN, p), t / nnb * CBM,
                      t % nnb * CBN)
      {
        BlockDigits(t, nnb, nmb);
        FinishedHolds(s, t, s0, base, ld, a, b, nmb * CBM, nnb * CBN, p, t / nnb * CBM, t % nnb * CBN);
      }
    }
  }

  /** Copying finished blocks back adds their products to a rectangle that still has the cells that
      were packed. */
  lemma CopiedBackAdds(s0: seq<int>, before: seq<int>, after: seq<int>, a: View, b: View, base: int, ld: nat, mb: nat,
                       nb: nat, p: int)
    requires Agree(s0, before, base, ld, 0, mb, 0, nb)
    requires Copied(before, after, Product(s0, base, ld, a, b, mb, nb, p), base, ld, 0, mb, 0, nb)
    ensures Adds(before, after, a, b, base, ld, Box(0, mb, 0, nb, 0, p))
  {
    var sums := Product(s0, base, ld, a, b, mb, nb, p);
    forall q | 0 <= q < |after|
      ensures after[q] == before[q] + Share(a, b, q, base, ld, Box(0, mb, 0, nb, 0, p))
    {
      if ld > 0 {
        Address(sums.data, base, ld, q);
        hide View.At, Dot, RowOf, ColOf;
      }
    }
  }

  lemma Address(s: seq<int>, base: int, ld: int, q: int)
    requires ld > 0 && 0 <= q < |s|
    ensures View(s, base, ld).At(RowOf(q, base, ld), ColOf(q, base, ld)) == s[q]
  {
  }

  /** The last loop nest of mm_cb. */
  method Unpack(ghost m: nat, ghost n: nat, p: nat, ghost a: View, ghost b: View, ghost s0: seq<int>,
                c1: seq<int>, nmb: nat, nnb: nat, c: array<int>, co: int, ldc: nat)
    requires Conforms(m, n, p, a, b, c.Length, co, ldc) && nmb == m / CBM && nnb == n / CBN
    requires Finished(c1, nmb, nnb, View(s0, co, ldc), a, b, p)
    requires Agree(s0, c[..], co, ldc, 0, nmb * CBM, 0, nnb * CBN)
    modifies c
    ensures Adds(old(c[..]), c[..], a, b, co, ldc, Box(0, nmb * CBM, 0, nnb * CBN, 0, p))
  {
    CbTarget(m, n, p, a, b, c.Length, co, ldc, nmb * CBM, nnb * CBN);
    BufferOf(nmb, nnb, CBM, CBN);
    BufferSize(nmb, nnb);
    hide Agree, Adds, Conforms, AllSums, Copied, Packed, Target, Buffer, Product;
    FinishedPacked(c1, nmb, nnb, s0, co, ldc, a, b, p);
    UnpackBlocks(c1, nmb, nnb, CBM, CBN, nmb * CBM, nnb * CBN, Product(s0, co, ldc, a, b, nmb * CBM, nnb * CBN, p), c,
                 co, ldc);
    CopiedBackAdds(s0, old(c[..]), c[..], a, b, co, ldc, nmb * CBM, nnb * CBN, p);
  }

  lemma BufferSize(nmb: nat, nnb: nat)
    ensures (nmb * CBM) * (nnb * CBN) == (nmb * nnb) * (CBM * CBN)
  {
  }

  lemma CbTarget(m: nat, n: nat, p: nat, a: View, b: View, length: int, co: int, ldc: nat, mb: nat, nb: nat)
    requires Conforms(m, n, p, a, b, length, co, ldc) && mb <= m && nb <= n
    ensures Target(length, co, ldc, mb, nb)
  {
    MulMonotone(mb - 1, m - 1, ldc);
  }

  // ---------- the cache-blocked product ----------

  /** The main loop of mm_cb: blocks of packed c, and beside each block row the columns of c that
      the blocks do not reach. */
  method CbMain(ghost nmb: nat, nnb: nat, npb: nat, m: nat, n: nat, p: nat, a: View, b: View, a1: seq<int>,
                b1: seq<int>,
                c1: array<int>, ghost c0: View, c: array<int>, co: int, ldc: nat)
    requires PackedOperands(nmb, nnb, npb, a, b, a1, b1) && c1 != c
    requires c1.Length == (nmb * nnb) * (CBM * CBN) && nmb == m / CBM && nnb == n / CBN && npb == p / CBK
    requires Conforms(m, n, p, a, b, c.Length, co, ldc)
    requires AllSums(c1[..], nmb * nnb, nnb, c0, a, b, 0, p)
    modifies c, c1
    ensures AllSums(c1[..], nmb * nnb, nnb, c0, a, b, nmb * nnb, p)
    ensures Adds(old(c[..]), c[..], a, b, co, ldc, Box(0, nmb * CBM, nnb * CBN, n, 0, p))
  {
    assert a.Fits(m, p) && b.Fits(p, n);
    hide Adds, Conforms, AllSums, View.Fits, PackedOperands;
    var mb, nb := m / CBM * CBM, nnb * CBN;
    ghost var strip := Box(0, mb, nb, n, 0, p);
    AddsNothing(c[..], a, b, co, ldc, strip.(i1 := 0));
    var i := 0;
    ghost var bi, done := 0, 0;
    while i < mb
      invariant 0 <= bi <= nmb && i == bi * CBM && Steps(done, bi, nnb)
      invariant AllSums(c1[..], nmb * nnb, nnb, c0, a, b, done, p)
      invariant Adds(old(c[..]), c[..], a, b, co, ldc, strip.(i1 := i))
    {
      ghost var mid := c[..];
      StepsTotal(done, bi, nnb);
      CbRow(nmb, nnb, npb, m, n, p, a, b, a1, b1, c1, c0, i, bi, done);
      assert c[..] == mid;
      if nb < n {
        InPlace(m, n, p, a, b, c, co, ldc, i, nb, CBM, n - nb);
      } else {
        AddsNothing(c[..], a, b, co, ldc, strip.(i0 := i, i1 := i + CBM));
      }
      AddsRows(old(c[..]), mid, c[..], a, b, co, ldc, strip.(i1 := i + CBM), i);
      StepsNext(done, bi, nnb);
      i, bi, done := i + CBM, bi + 1, done + nnb;
    }
    StepsTotal(done, bi, nnb);
  }

  /** The rows below the last full block row. */
  method CbBottom(m: nat, n: nat, p: nat, a: View, b: View, c: array<int>, co: int, ldc: nat, mb: nat)
    requires Conforms(m, n, p, a, b, c.Length, co, ldc) && mb <= m
    modifies c
    ensures Adds(old(c[..]), c[..], a, b, co, ldc, Box(mb, m, 0, n, 0, p))
  {
    hide Adds, Conforms;
    ghost var rows := Box(mb, m, 0, n, 0, p);
    AddsNothing(c[..], a, b, co, ldc, rows.(j1 := 0));
    if mb < m {
      var j := 0;
      while j < n
        invariant 0 <= j
        invariant Adds(old(c[..]), c[..], a, b, co, ldc, rows.(j1 := Min(j, n)))
      {
        ghost var mid := c[..];
        var width := Min(n - j, CBN);
        InPlace(m, n, p, a, b, c, co, ldc, mb, j, m - mb, width);
        AddsColumns(old(c[..]), mid, c[..], a, b, co, ldc, rows.(j1 := j + width), j);
        j := j + CBN;
      }
    } else {
      AddsNothing(c[..], a, b, co, ldc, rows);
    }
  }

  /** Strip, bottom and blocks together are the whole product. */
  lemma CbParts(s0: seq<int>, s1: seq<int>, s2: seq<int>, s3: seq<int>, a: View, b: View, co: int, ldc: int,
                m: int, n: int, p: int, mb: int, nb: int)
    requires 0 <= mb <= m && 0 <= nb <= n
    requires Adds(s0, s1, a, b, co, ldc, Box(0, mb, nb, n, 0, p))
    requires Adds(s1, s2, a, b, co, ldc, Box(mb, m, 0, n, 0, p))
    requires Adds(s2, s3, a, b, co, ldc, Box(0, mb, 0, nb, 0, p))
    ensures AddsProduct(s0, s3, a, b, co, ldc, m, n, p)
  {
    hide Dot;
  }

  lemma BufferOf(down: nat, across: nat, rows: nat, columns: nat)
    requires 0 < rows && 0 < columns
    ensures Buffer((down * rows) * (across * columns), down, across, rows, columns, down * rows, across * columns)
  {
    assert (down * rows) * (across * columns) == (down * across) * (rows * columns);
  }

  /** The packing half of mm_cb. */
  method PackAll(m: nat, n: nat, p: nat, a: View, b: View, c: array<int>, co: int, ldc: nat)
    returns (a1: array<int>, b1: array<int>, c1: array<int>)
    requires Conforms(m, n, p, a, b, c.Length, co, ldc)
    ensures fresh(a1) && fresh(b1) && fresh(c1)
    ensures PackedOperands(m / CBM, n / CBN, p / CBK, a, b, a1[..], b1[..])
    ensures c1.Length == ((m / CBM) * (n / CBN)) * (CBM * CBN)
    ensures AllSums(c1[..], (m / CBM) * (n / CBN), n / CBN, View(c[..], co, ldc), a, b, 0, p)
  {
    hide AllSums, Packed;
    var nmb, nnb, npb := m / CBM, n / CBN, p / CBK;
    var mb, nb, pb := nmb * CBM, nnb * CBN, npb * CBK;
    CbFits(m, n, p, a, b, c[..], co, ldc, mb, nb, pb);
    BufferOf(nmb, npb, CBM, CBK);
    BufferOf(npb, nnb, CBK, CBN);
    BufferOf(nmb, nnb, CBM, CBN);
    a1 := new int[mb * pb];
    b1 := new int[pb * nb];
    c1 := new int[mb * nb];
    PackBlocks(a1, nmb, npb, CBM, CBK, mb, pb, a);
    PackBlocks(b1, npb, nnb, CBK, CBN, pb, nb, b);
    PackBlocks(c1, nmb, nnb, CBM, CBN, mb, nb, View(c[..], co, ldc));
    AllSumsStart(c1[..], nmb * nnb, nnb, View(c[..], co, ldc), a, b, p);
  }

  /** mm.c mm_cb. */
  method MmCb(m: nat, n: nat, p: nat, a: View, b: View, c: array<int>, co: int, ldc: nat)
    requires Conforms(m, n, p, a, b, c.Length, co, ldc)
    modifies c
    ensures AddsProduct(old(c[..]), c[..], a, b, co, ldc, m, n, p)
  {
    hide Adds, AllSums, Agree, Conforms, PackedOperands;
    var nmb, nnb, npb := m / CBM, n / CBN, p / CBK;
    var mb, nb := nmb * CBM, nnb * CBN;
    ghost var s0 := c[..];
    var a1, b1, c1 := PackAll(m, n, p, a, b, c, co, ldc);
    CbMain(nmb, nnb, npb, m, n, p, a, b, a1[..], b1[..], c1, View(s0, co, ldc), c, co, ldc);
    ghost var s1 := c[..];
    CbBottom(m, n, p, a, b, c, co, ldc, mb);
    ghost var s2 := c[..];
    AgreeStart(s0, co, ldc, 0, mb, 0, nb);
    AgreeAfterAdds(s0, s0, s1, a, b, co, ldc, Box(0, mb, nb, n, 0, p), 0, mb, 0, nb);
    AgreeAfterAdds(s0, s1, s2, a, b, co, ldc, Box(mb, m, 0, n, 0, p), 0, mb, 0, nb);
    Unpack(m, n, p, a, b, s0, c1[..], nmb, nnb, c, co, ldc);
    CbParts(s0, s1, s2, c[..], a, b, co, ldc, m, n, p, mb, nb);
  }

  lemma CbFits(m: nat, n: nat, p: nat, a: View, b: View, s: seq<int>, co: int, ldc: nat, mb: nat, nb: nat, pb: nat)
    requires Conforms(m, n, p, a, b, |s|, co, ldc) && mb <= m && nb <= n && pb <= p
    ensures a.Fits(mb, pb) && b.Fits(pb, nb) && View(s, co, ldc).Fits(mb, nb)
  {
    FitsShift(a, m, p, 0, 0, mb, pb);
    FitsShift(b, p, n, 0, 0, pb, nb);
    FitsShift(View(s, co, ldc), m, n, 0, 0, mb, nb);
  }

  lemma AgreeStart(s: seq<int>, base: int, ld: int, i0: int, i1: int, j0: int, j1: int)
    ensures Agree(s, s, base, ld, i0, i1, j0, j1)
  {
  }

  /** mm.c mm: c += a*b for every m, n, p and all leading dimensions, on either path. */
  method Mm(m: nat, n: nat, p: nat, a: View, b: View, c: array<int>, co: int, ldc: nat)
    requires Conforms(m, n, p, a, b, c.Length, co, ldc)
    modifies c
    ensures AddsProduct(old(c[..]), c[..], a, b, co, ldc, m, n, p)
  {
    if m <= 2 * CBM && n <= 2 * CBN && p <= 2 * CBK {
      MmRb(m, n, p, a, b, c, co, ldc);
    } else {
      MmCb(m, n, p, a, b, c, co, ldc);
    }
  }
}
