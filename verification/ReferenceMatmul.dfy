/** riscv-tests/benchmarks/mt-matmul/matmul.c: the simple product that the other variants stand in
    for.  Each core sets the rows of its share, C = A*B, and ignores what C held. */
module ReferenceMatmul {
  import opened Arithmetic
  import opened Strided
  import opened Team

  /** `after` has the inner products in the box of the window, and the cells of `before` elsewhere. */
  ghost predicate Sets(before: seq<int>, after: seq<int>, a: View, b: View, ld: int, x: Box) {
    && |before| == |after|
    && forall q :: 0 <= q < |after| ==> after[q] == if InBox(q, ld, x) then
        Dot(a, b, RowOf(q, 0, ld), ColOf(q, 0, ld), x.k0, x.k1) else before[q]
  }

  predicate InBox(q: int, ld: int, x: Box) {
    ld > 0 && x.i0 <= RowOf(q, 0, ld) < x.i1 && x.j0 <= ColOf(q, 0, ld) < x.j1
  }

  lemma SetsNothing(s: seq<int>, a: View, b: View, ld: int, x: Box)
    requires x.i1 <= x.i0 || x.j1 <= x.j0
    ensures Sets(s, s, a, b, ld, x)
  {
  }

  lemma SetsRows(s0: seq<int>, s1: seq<int>, s2: seq<int>, a: View, b: View, ld: int, x: Box, i: int)
    requires x.i0 <= i <= x.i1 && Sets(s0, s1, a, b, ld, x.(i1 := i)) && Sets(s1, s2, a, b, ld, x.(i0 := i))
    ensures Sets(s0, s2, a, b, ld, x)
  {
    hide Dot;
  }

  lemma SetsColumns(s0: seq<int>, s1: seq<int>, s2: seq<int>, a: View, b: View, ld: int, x: Box, j: int)
    requires x.j0 <= j <= x.j1 && Sets(s0, s1, a, b, ld, x.(j1 := j)) && Sets(s1, s2, a, b, ld, x.(j0 := j))
    ensures Sets(s0, s2, a, b, ld, x)
  {
    hide Dot;
  }

  lemma SetsCell(before: seq<int>, a: View, b: View, ld: int, i: int, j: int, p: int, v: int)
    requires 0 <= j < ld && 0 <= i * ld + j < |before| && v == Dot(a, b, i, j, 0, p)
    ensures Sets(before, before[i * ld + j := v], a, b, ld, Box(i, i + 1, j, j + 1, 0, p))
  {
    Coordinates(i * ld + j, 0, ld, i, j);
    var x := Box(i, i + 1, j, j + 1, 0, p);
    forall q | 0 <= q < |before|
      ensures InBox(q, ld, x) <==> q == i * ld + j
    {
      CellOf(q, 0, ld);
    }
  }

  /** The loop over k. */
  method InnerProduct(lda: nat, a: View, b: View, i: nat, j: nat) returns (sum: int)
    requires forall k :: 0 <= k < lda ==> a.Has(j, k) && b.Has(k, i)
    ensures sum == Dot(a, b, j, i, 0, lda)
  {
    hide Dot, View.At;
    DotEmpty(a, b, j, i, 0);
    sum := 0;
    var k := 0;
    while k < lda
      invariant 0 <= k <= lda && sum == Dot(a, b, j, i, 0, k)
    {
      DotStep(a, b, j, i, 0, k);
      sum := sum + a.Get(j, k) * b.Get(k, i);
      k := k + 1;
    }
  }

  /** The loop over j: column i of the core's rows. */
  method Column(lda: nat, a: View, b: View, c: array<int>, lo: nat, hi: nat, i: nat)
    requires Square(lda, a, b, c.Length) && lo <= hi <= lda && i < lda
    modifies c
    ensures Sets(old(c[..]), c[..], a, b, lda, Box(lo, hi, i, i + 1, 0, lda))
  {
    ghost var x := Box(lo, hi, i, i + 1, 0, lda);
    SetsNothing(c[..], a, b, lda, x.(i1 := lo));
    hide Sets;
    var j := lo;
    while j < hi
      invariant lo <= j <= hi
      invariant Sets(old(c[..]), c[..], a, b, lda, x.(i1 := j))
    {
      ConformsAt(lda, lda, lda, a, b, c.Length, 0, lda, j, i);
      ghost var before := c[..];
      var sum := InnerProduct(lda, a, b, i, j);
      SetsCell(before, a, b, lda, j, i, lda, sum);
      c[i + j * lda] := sum;
      SetsRows(old(c[..]), before, c[..], a, b, lda, x.(i1 := j + 1), j);
      j := j + 1;
    }
  }

  /** matmul.c matmul, one core. */
  method Matmul(coreid: nat, ncores: nat, lda: nat, a: View, b: View, c: array<int>)
    requires coreid < ncores && Square(lda, a, b, c.Length)
    modifies c
    ensures Sets(old(c[..]), c[..], a, b, lda, CoreShare(coreid, ncores, lda))
  {
    SliceFits(coreid, ncores, lda);
    var block := lda / ncores;
    var start := block * coreid;
    ghost var x := CoreShare(coreid, ncores, lda);
    SetsNothing(c[..], a, b, lda, x.(j1 := 0));
    hide Sets, Square;
    var i := 0;
    while i < lda
      invariant 0 <= i <= lda
      invariant Sets(old(c[..]), c[..], a, b, lda, x.(j1 := i))
    {
      ghost var before := c[..];
      Column(lda, a, b, c, start, start + block, i);
      SetsColumns(old(c[..]), before, c[..], a, b, lda, x.(j1 := i + 1), i);
      i := i + 1;
    }
  }

  /** The part of C that a core computes. */
  function CoreShare(coreid: nat, ncores: nat, lda: nat): Box
    requires ncores > 0
  {
    Box(lda / ncores * coreid, lda / ncores * coreid + lda / ncores, 0, lda, 0, lda)
  }

  function CellProduct(a: View, b: View, lda: nat, q: int): int {
    if lda > 0 then Dot(a, b, RowOf(q, 0, lda), ColOf(q, 0, lda), 0, lda) else 0
  }

  ghost predicate SetBySome(order: seq<nat>, ncores: nat, lda: nat, q: int, k: nat)
    requires 0 < ncores && k <= |order|
  {
    exists i :: 0 <= i < k && InBox(q, lda, CoreShare(order[i], ncores, lda))
  }

  /** The first k cores in the order: a cell holds its inner product when one of them has set it. */
  lemma {:induction false} SomeCoresSet(states: seq<seq<int>>, order: seq<nat>, ncores: nat, a: View, b: View,
                                        lda: nat, k: nat, q: nat)
    requires 0 < ncores && k <= |order| < |states|
    requires forall i :: 0 <= i < k ==> Sets(states[i], states[i + 1], a, b, lda, CoreShare(order[i], ncores, lda))
    ensures |states[k]| == |states[0]|
    ensures q < |states[0]| ==>
              states[k][q] == if SetBySome(order, ncores, lda, q, k) then CellProduct(a, b, lda, q) else states[0][q]
  {
    hide Dot;
    if k > 0 {
      SomeCoresSet(states, order, ncores, a, b, lda, k - 1, q);
      assert Sets(states[k - 1], states[k], a, b, lda, CoreShare(order[k - 1], ncores, lda));
      hide InBox;
      if !InBox(q, lda, CoreShare(order[k - 1], ncores, lda)) {
        assert SetBySome(order, ncores, lda, q, k) <==> SetBySome(order, ncores, lda, q, k - 1);
      }
    }
  }

  /** The rows that some core sets are those below ncores*(lda/ncores). */
  lemma SharesCover(order: seq<nat>, ncores: nat, lda: nat, q: nat)
    requires 0 < ncores && OrderOf(order, ncores)
    ensures SetBySome(order, ncores, lda, q, ncores) <==> InBox(q, lda, Box(0, lda / ncores * ncores, 0, lda, 0, lda))
  {
    if lda > 0 {
      var r := RowOf(q, 0, lda);
      var w := lda / ncores;
      CellOf(q, 0, lda);
      if 0 <= r < w * ncores {
        var core := r / w;
        RowOwner(r, w, ncores);
        assert core in order;
        var i :| 0 <= i < ncores && order[i] == core;
        assert InBox(q, lda, CoreShare(order[i], ncores, lda));
      }
      if SetBySome(order, ncores, lda, q, ncores) {
        var i :| 0 <= i < ncores && InBox(q, lda, CoreShare(order[i], ncores, lda));
        MulMonotone(order[i] + 1, ncores, w);
        MulDistributes(order[i], 1, w);
        MulMonotone(0, order[i], w);
      }
    }
  }

  lemma RowOwner(r: nat, w: nat, ncores: nat)
    requires r < w * ncores
    ensures w > 0 && 0 <= r / w < ncores && w * (r / w) <= r < w * (r / w) + w
  {
    Quotient(r, w);
    if ncores <= r / w {
      MulMonotone(ncores, r / w, w);
    }
  }

  /** All cores, one after the other in any order, set exactly the rows below ncores*(lda/ncores): the
      whole of C exactly when the cores divide lda. */
  method AllCoresSet(order: seq<nat>, ncores: nat, lda: nat, a: View, b: View, c: array<int>)
    requires 0 < ncores && OrderOf(order, ncores) && Square(lda, a, b, c.Length)
    modifies c
    ensures Sets(old(c[..]), c[..], a, b, lda, Box(0, lda / ncores * ncores, 0, lda, 0, lda))
    ensures lda / ncores * ncores == lda <==> lda % ncores == 0
  {
    WholeIff(ncores, lda);
    hide Sets, Square, CoreShare;
    ghost var states := [c[..]];
    for k := 0 to ncores
      invariant |states| == k + 1 && states[0] == old(c[..]) && states[k] == c[..]
      invariant forall i :: 0 <= i < k ==> Sets(states[i], states[i + 1], a, b, lda, CoreShare(order[i], ncores, lda))
    {
      Matmul(order[k], ncores, lda, a, b, c);
      states := states + [c[..]];
    }
    CoresSet(states, order, ncores, a, b, lda);
  }

  lemma WholeIff(ncores: nat, lda: nat)
    requires 0 < ncores
    ensures lda / ncores * ncores == lda <==> lda % ncores == 0
  {
    Quotient(lda, ncores);
  }

  lemma CoresSet(states: seq<seq<int>>, order: seq<nat>, ncores: nat, a: View, b: View, lda: nat)
    requires 0 < ncores && OrderOf(order, ncores) && |states| == ncores + 1
    requires forall i :: 0 <= i < ncores ==> Sets(states[i], states[i + 1], a, b, lda, CoreShare(order[i], ncores, lda))
    ensures Sets(states[0], states[ncores], a, b, lda, Box(0, lda / ncores * ncores, 0, lda, 0, lda))
  {
    assert |order| == ncores;
    hide CoreShare, InBox, OrderOf, Dot, SetBySome;
    var x := Box(0, lda / ncores * ncores, 0, lda, 0, lda);
    SomeCoresSet(states, order, ncores, a, b, lda, ncores, 0);
    forall q | 0 <= q < |states[0]|
      ensures states[ncores][q] == if InBox(q, lda, x) then CellProduct(a, b, lda, q) else states[0][q]
    {
      SomeCoresSet(states, order, ncores, a, b, lda, ncores, q);
      SharesCover(order, ncores, lda, q);
    }
    BoxNeedsColumns(lda, x);
  }

  lemma BoxNeedsColumns(lda: nat, x: Box)
    ensures forall q :: InBox(q, lda, x) ==> lda > 0
  {
  }

  /** Where C holds zeros, a variant that adds leaves what the reference leaves, and nothing else. */
  lemma AddingToZerosIsSetting(before: seq<int>, after: seq<int>, a: View, b: View, lda: nat)
    requires forall q :: 0 <= q < |before| && InBox(q, lda, Box(0, lda, 0, lda, 0, lda)) ==> before[q] == 0
    ensures AddsProduct(before, after, a, b, 0, lda, lda, lda, lda)
        <==> Sets(before, after, a, b, lda, Box(0, lda, 0, lda, 0, lda))
  {
    hide Dot;
    var x := Box(0, lda, 0, lda, 0, lda);
    forall q | 0 <= q < |before|
      ensures before[q] + Share(a, b, q, 0, lda, x) ==
              if InBox(q, lda, x) then Dot(a, b, RowOf(q, 0, lda), ColOf(q, 0, lda), x.k0, x.k1) else before[q]
    {
    }
  }
}
