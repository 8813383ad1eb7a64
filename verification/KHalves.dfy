/** riscv-tests/mt/dc_matmul.c: for 32 x 32 matrices and two cores, register and cache blocks with
    the two halves of the inner index taken in a different order by each core; in every other case
    core 0 multiplies on its own. */
module KHalves {
  import opened Strided
  import opened Team

  const REG_I := 8
  const REG_J := 2
  const BLOCK_J := 16
  const BLOCK_K := 16
  const LDA := 32
  const NCORES := 2

  // ---------- the 8 x 2 register block ----------

  /** The register block at row j, column i holds the cells of `s0` and the inner products so far. */
  ghost predicate Block(r: array2<int>, s0: seq<int>, a: View, b: View, j: nat, i: nat, lo: int, hi: int)
    reads r
  {
    && r.Length0 == REG_I && r.Length1 == REG_J
    && forall ri, rj :: 0 <= ri < REG_I && 0 <= rj < REG_J ==> r[ri, rj] == Wanted(s0, a, b, j + rj, i + ri, lo, hi)
  }

  ghost function Wanted(s0: seq<int>, a: View, b: View, j: int, i: int, lo: int, hi: int): int {
    View(s0, 0, LDA).At(j, i) + Dot(a, b, j, i, lo, hi)
  }

  /** Load C in register blocks. */
  method LoadBlock(c: array<int>, ghost a: View, ghost b: View, j: nat, i: nat, ghost k: int, r: array2<int>)
    requires j + REG_J <= LDA && i + REG_I <= LDA && LDA * LDA <= c.Length
    requires r.Length0 == REG_I && r.Length1 == REG_J
    modifies r
    ensures Block(r, c[..], a, b, j, i, k, k)
  {
    var ri := 0;
    while ri < REG_I
      invariant 0 <= ri <= REG_I
      invariant forall x, y :: 0 <= x < ri && 0 <= y < REG_J ==> r[x, y] == Wanted(c[..], a, b, j + y, i + x, k, k)
    {
      var rj := 0;
      while rj < REG_J
        invariant 0 <= rj <= REG_J
        invariant forall x, y :: 0 <= x < ri && 0 <= y < REG_J ==> r[x, y] == Wanted(c[..], a, b, j + y, i + x, k, k)
        invariant forall y :: 0 <= y < rj ==> r[ri, y] == Wanted(c[..], a, b, j + y, i + ri, k, k)
      {
        r[ri, rj] := c[j * LDA + (i + ri + rj * LDA)];
        rj := rj + 1;
      }
      ri := ri + 1;
    }
  }

  /** Row k of B, from column i on. */
  method LoadRow(b: View, k: nat, i: nat, row: array<int>)
    requires row.Length == REG_I && b.ld == LDA && b.base == 0 && k < LDA && i + REG_I <= LDA && LDA * LDA <= |b.data|
    modifies row
    ensures forall ri :: 0 <= ri < REG_I ==> row[ri] == b.At(k, i + ri)
  {
    var ri := 0;
    while ri < REG_I
      invariant 0 <= ri <= REG_I
      invariant forall x :: 0 <= x < ri ==> row[x] == b.At(k, i + x)
    {
      row[ri] := b.data[i + (k * LDA + ri)];
      ri := ri + 1;
    }
  }

  /** Compute C in register blocks: one inner index. */
  method BlockStep(a: View, b: View, ghost s0: seq<int>, j: nat, i: nat, ghost lo: int, k: nat, r: array2<int>,
                   row: array<int>)
    requires Block(r, s0, a, b, j, i, lo, k) && lo <= k < LDA && j + REG_J <= LDA
    requires a.base == 0 && a.ld == LDA && LDA * LDA <= |a.data|
    requires row.Length == REG_I && forall ri :: 0 <= ri < REG_I ==> row[ri] == b.At(k, i + ri)
    modifies r
    ensures Block(r, s0, a, b, j, i, lo, k + 1)
  {
    hide Dot;
    var rj := 0;
    while rj < REG_J
      invariant 0 <= rj <= REG_J
      invariant forall x, y :: 0 <= x < REG_I && 0 <= y < REG_J ==>
                  r[x, y] == Wanted(s0, a, b, j + y, i + x, lo, if y < rj then k + 1 else k)
    {
      var x0 := a.data[j * LDA + (rj * LDA + k)];
      assert x0 == a.At(j + rj, k);
      var ri := 0;
      hide View.At;
      while ri < REG_I
        invariant 0 <= ri <= REG_I
        invariant forall x, y :: 0 <= x < REG_I && 0 <= y < REG_J ==>
                    r[x, y] == Wanted(s0, a, b, j + y, i + x, lo, if y < rj || (y == rj && x < ri) then k + 1 else k)
      {
        DotStep(a, b, j + rj, i + ri, lo, k);
        r[ri, rj] := r[ri, rj] + x0 * row[ri];
        ri := ri + 1;
      }
      rj := rj + 1;
    }
  }

  /** The stores of one column of the register block, the columns before it having been stored. */
  method StoreColumn(c: array<int>, ghost s0: seq<int>, ghost a: View, ghost b: View, j: nat, i: nat, ri: nat,
                     ghost lo: int, ghost hi: int, r: array2<int>)
    requires j + REG_J <= LDA && i + REG_I <= LDA && ri < REG_I && LDA * LDA <= |s0| == c.Length
    requires Block(r, s0, a, b, j, i, lo, hi)
    requires Adds(s0, c[..], a, b, 0, LDA, Box(j, j + REG_J, i, i + ri, lo, hi))
    modifies c
    ensures Adds(old(c[..]), c[..], a, b, 0, LDA, Box(j, j + REG_J, i + ri, i + ri + 1, lo, hi))
  {
    hide Adds, Dot;
    ghost var s1 := c[..];
    ghost var column := Box(j, j + REG_J, i + ri, i + ri + 1, lo, hi);
    AddsNothing(s1, a, b, 0, LDA, column.(i1 := j));
    var rj := 0;
    while rj < REG_J
      invariant 0 <= rj <= REG_J
      invariant Adds(s1, c[..], a, b, 0, LDA, column.(i1 := j + rj))
    {
      ghost var s2 := c[..];
      AddsKeeps(s0, s1, a, b, 0, LDA, Box(j, j + REG_J, i, i + ri, lo, hi), j + rj, i + ri);
      AddsKeeps(s1, s2, a, b, 0, LDA, column.(i1 := j + rj), j + rj, i + ri);
      c[j * LDA + (i + ri + rj * LDA)] := r[ri, rj];
      AddsCell(s2, a, b, 0, LDA, j + rj, i + ri, lo, hi, r[ri, rj]);
      AddsRows(s1, s2, c[..], a, b, 0, LDA, column.(i1 := j + rj + 1), j + rj);
      rj := rj + 1;
    }
  }

  /** Store C in register blocks. */
  method StoreBlock(c: array<int>, ghost a: View, ghost b: View, j: nat, i: nat, ghost lo: int, ghost hi: int,
                    r: array2<int>)
    requires j + REG_J <= LDA && i + REG_I <= LDA && LDA * LDA <= c.Length
    requires Block(r, c[..], a, b, j, i, lo, hi)
    modifies c
    ensures Adds(old(c[..]), c[..], a, b, 0, LDA, Box(j, j + REG_J, i, i + REG_I, lo, hi))
  {
    hide Adds, Dot, Block;
    ghost var s0 := c[..];
    ghost var x := Box(j, j + REG_J, i, i + REG_I, lo, hi);
    AddsNothing(s0, a, b, 0, LDA, x.(j1 := i));
    var ri := 0;
    while ri < REG_I
      invariant 0 <= ri <= REG_I
      invariant Adds(s0, c[..], a, b, 0, LDA, x.(j1 := i + ri))
    {
      ghost var s1 := c[..];
      StoreColumn(c, s0, a, b, j, i, ri, lo, hi, r);
      AddsColumns(s0, s1, c[..], a, b, 0, LDA, x.(j1 := i + ri + 1), i + ri);
      ri := ri + 1;
    }
  }

  /** One register block, for the inner indices of one cache block. */
  method DcTile(a: View, b: View, c: array<int>, j: nat, i: nat, kk: nat, r: array2<int>, row: array<int>)
    requires Square(LDA, a, b, c.Length) && j + REG_J <= LDA && i + REG_I <= LDA && kk + BLOCK_K <= LDA
    requires r.Length0 == REG_I && r.Length1 == REG_J && row.Length == REG_I && c != row
    modifies c, r, row
    ensures Adds(old(c[..]), c[..], a, b, 0, LDA, Box(j, j + REG_J, i, i + REG_I, kk, kk + BLOCK_K))
  {
    hide Block, Adds, Dot;
    ghost var s0 := c[..];
    LoadBlock(c, a, b, j, i, kk, r);
    var k := kk;
    while k < if LDA < kk + BLOCK_K then LDA else kk + BLOCK_K
      invariant kk <= k <= kk + BLOCK_K && c[..] == s0
      invariant Block(r, s0, a, b, j, i, kk, k)
    {
      LoadRow(b, k, i, row);
      BlockStep(a, b, s0, j, i, kk, k, r, row);
      k := k + 1;
    }
    StoreBlock(c, a, b, j, i, kk, kk + BLOCK_K, r);
  }

  // ---------- the cache blocks ----------

  /** The loops over j and i for one cache block. */
  method DcBlock(a: View, b: View, c: array<int>, jj: nat, end: nat, kk: nat, r: array2<int>, row: array<int>)
    requires Square(LDA, a, b, c.Length) && jj + BLOCK_J <= end <= LDA && kk + BLOCK_K <= LDA
    requires r.Length0 == REG_I && r.Length1 == REG_J && row.Length == REG_I && c != row
    modifies c, r, row
    ensures Adds(old(c[..]), c[..], a, b, 0, LDA, Box(jj, jj + BLOCK_J, 0, LDA, kk, kk + BLOCK_K))
  {
    hide Adds, Square;
    ghost var x := Box(jj, jj + BLOCK_J, 0, LDA, kk, kk + BLOCK_K);
    AddsNothing(c[..], a, b, 0, LDA, x.(i1 := jj));
    var j := jj;
    while j < if end < jj + BLOCK_J then end else jj + BLOCK_J
      invariant jj <= j <= jj + BLOCK_J && (j - jj) % REG_J == 0
      invariant Adds(old(c[..]), c[..], a, b, 0, LDA, x.(i1 := j))
    {
      ghost var rowStart := c[..];
      ghost var rows := x.(i0 := j, i1 := j + REG_J);
      AddsNothing(c[..], a, b, 0, LDA, rows.(j1 := 0));
      var i := 0;
      while i < LDA
        invariant 0 <= i <= LDA && i % REG_I == 0
        invariant Adds(rowStart, c[..], a, b, 0, LDA, rows.(j1 := i))
      {
        ghost var tileStart := c[..];
        DcTile(a, b, c, j, i, kk, r, row);
        AddsColumns(rowStart, tileStart, c[..], a, b, 0, LDA, rows.(j1 := i + REG_I), i);
        i := i + REG_I;
      }
      AddsRows(old(c[..]), rowStart, c[..], a, b, 0, LDA, x.(i1 := j + REG_J), j);
      j := j + REG_J;
    }
  }

  /** One of the two passes over a core's rows, with the inner indices from kkStart to kkEnd. */
  method DcPass(a: View, b: View, c: array<int>, start: nat, end: nat, kkStart: nat, kkEnd: nat, r: array2<int>,
                row: array<int>)
    requires Square(LDA, a, b, c.Length) && (start, end) in {(0, 16), (16, 32)}
      && (kkStart, kkEnd) in {(0, 16), (16, 32)}
    requires r.Length0 == REG_I && r.Length1 == REG_J && row.Length == REG_I && c != row
    modifies c, r, row
    ensures Adds(old(c[..]), c[..], a, b, 0, LDA, Box(start, end, 0, LDA, kkStart, kkEnd))
  {
    hide Adds, Square;
    ghost var x := Box(start, end, 0, LDA, kkStart, kkEnd);
    AddsNothing(c[..], a, b, 0, LDA, x.(i1 := start));
    var jj := start;
    while jj < end
      invariant jj == start || jj == end
      invariant Adds(old(c[..]), c[..], a, b, 0, LDA, x.(i1 := jj))
    {
      ghost var before := c[..];
      ghost var rows := x.(i0 := jj, i1 := jj + BLOCK_J);
      AddsNothing(c[..], a, b, 0, LDA, rows.(k1 := kkStart));
      var kk := kkStart;
      while kk < kkEnd
        invariant kk == kkStart || kk == kkEnd
        invariant Adds(before, c[..], a, b, 0, LDA, rows.(k1 := kk))
      {
        ghost var sliceStart := c[..];
        DcBlock(a, b, c, jj, end, kk, r, row);
        AddsSlices(before, sliceStart, c[..], a, b, 0, LDA, rows.(k1 := kk + BLOCK_K), kk);
        kk := kk + BLOCK_K;
      }
      AddsRows(old(c[..]), before, c[..], a, b, 0, LDA, x.(i1 := jj + BLOCK_J), jj);
      jj := jj + BLOCK_J;
    }
  }

  /** The branch for two cores and 32 x 32 matrices. */
  method DcFast(coreid: nat, a: View, b: View, c: array<int>)
    requires coreid < NCORES && Square(LDA, a, b, c.Length)
    modifies c
    ensures Adds(old(c[..]), c[..], a, b, 0, LDA,
                 Box(LDA / NCORES * coreid, LDA / NCORES * coreid + LDA / NCORES, 0, LDA, 0, LDA))
  {
    hide Adds, Square;
    var r := new int[REG_I, REG_J];
    var row := new int[REG_I];
    var start := coreid * (LDA / NCORES);
    var end := if coreid == NCORES - 1 then LDA else (coreid + 1) * (LDA / NCORES);
    DcPass(a, b, c, start, end, if coreid == 0 then 0 else LDA / 2, if coreid == 0 then LDA / 2 else LDA, r, row);
    ghost var middle := c[..];
    DcPass(a, b, c, start, end, if coreid != 0 then 0 else LDA / 2, if coreid != 0 then LDA / 2 else LDA, r, row);
    AddsSlices(old(c[..]), middle, c[..], a, b, 0, LDA, Box(start, end, 0, LDA, 0, LDA), LDA / 2);
  }

  // ---------- the naive branch ----------

  /** The loops of core 0 when the fast branch does not apply. */
  method DcNaive(lda: nat, a: View, b: View, c: array<int>)
    requires Square(lda, a, b, c.Length)
    modifies c
    ensures AddsProduct(old(c[..]), c[..], a, b, 0, lda, lda, lda, lda)
  {
    hide Adds, Square;
    ghost var x := Box(0, lda, 0, lda, 0, lda);
    AddsNothing(c[..], a, b, 0, lda, x.(j1 := 0));
    var i := 0;
    while i < lda
      invariant 0 <= i <= lda
      invariant Adds(old(c[..]), c[..], a, b, 0, lda, x.(j1 := i))
    {
      ghost var before := c[..];
      ghost var column := x.(j0 := i, j1 := i + 1);
      AddsNothing(c[..], a, b, 0, lda, column.(i1 := 0));
      var j := 0;
      while j < lda
        invariant 0 <= j <= lda
        invariant Adds(before, c[..], a, b, 0, lda, column.(i1 := j))
      {
        ghost var cellStart := c[..];
        DcCell(lda, a, b, c, i, j);
        AddsRows(before, cellStart, c[..], a, b, 0, lda, column.(i1 := j + 1), j);
        j := j + 1;
      }
      AddsColumns(old(c[..]), before, c[..], a, b, 0, lda, x.(j1 := i + 1), i);
      i := i + 1;
    }
  }

  /** The loop over k, adding into the cell of C each time. */
  method DcCell(lda: nat, a: View, b: View, c: array<int>, i: nat, j: nat)
    requires Square(lda, a, b, c.Length) && i < lda && j < lda
    modifies c
    ensures Adds(old(c[..]), c[..], a, b, 0, lda, Box(j, j + 1, i, i + 1, 0, lda))
  {
    ConformsAt(lda, lda, lda, a, b, c.Length, 0, lda, j, i);
    hide Adds, Square, Dot, View.At;
    ghost var x := Box(j, j + 1, i, i + 1, 0, lda);
    AddsNothing(c[..], a, b, 0, lda, x.(k1 := 0));
    var k := 0;
    while k < lda
      invariant 0 <= k <= lda
      invariant Adds(old(c[..]), c[..], a, b, 0, lda, x.(k1 := k))
    {
      ghost var before := c[..];
      var v := c[i + j * lda] + a.Get(j, k) * b.Get(k, i);
      DotEmpty(a, b, j, i, k);
      DotStep(a, b, j, i, k, k);
      AddsCell(before, a, b, 0, lda, j, i, k, k + 1, v);
      c[i + j * lda] := v;
      AddsSlices(old(c[..]), before, c[..], a, b, 0, lda, x.(k1 := k + 1), k);
      k := k + 1;
    }
  }

  // ---------- one core and all cores ----------

  /** The rows that a core computes. */
  function DcRows(coreid: nat, ncores: nat, lda: nat): set<int> {
    if ncores == NCORES && lda == LDA then Rows(LDA / NCORES * coreid, LDA / NCORES * coreid + LDA / NCORES)
    else if coreid == 0 then Rows(0, lda)
    else {}
  }

  /** dc_matmul.c matmul, one core: C += A*B on the rows of that core. */
  method DcMatmul(coreid: nat, ncores: nat, lda: nat, a: View, b: View, c: array<int>)
    requires coreid < ncores && Square(lda, a, b, c.Length)
    modifies c
    ensures AddsInto(old(c[..]), c[..], a, b, lda, DcRows(coreid, ncores, lda), lda, lda)
  {
    if ncores == NCORES && lda == LDA {
      hide Adds, AddsInto, Square;
      DcFast(coreid, a, b, c);
      IntoBox(old(c[..]), c[..], a, b, lda, LDA / NCORES * coreid, LDA / NCORES * coreid + LDA / NCORES, lda, lda);
    } else {
      if coreid > 0 {
        IntoNothing(c[..], a, b, lda, lda, lda);
        return;
      }
      hide Adds, AddsInto, Square;
      DcNaive(lda, a, b, c);
      IntoBox(old(c[..]), c[..], a, b, lda, 0, lda, lda, lda);
    }
  }

  /** The rows of all the cores. */
  function DcShares(ncores: nat, lda: nat): seq<set<int>>
    requires 0 < ncores
  {
    seq(ncores, core requires 0 <= core < ncores => DcRows(core, ncores, lda))
  }

  /** Every row has exactly one owner. */
  lemma DcPartition(ncores: nat, lda: nat)
    requires 0 < ncores
    ensures Partition(DcShares(ncores, lda), lda)
  {
    var rows := DcShares(ncores, lda);
    forall r
      ensures 0 <= r < lda <==> Owned(rows, r)
    {
      if 0 <= r < lda {
        assert r in rows[if ncores == NCORES && lda == LDA && r >= LDA / NCORES then 1 else 0];
      }
    }
  }

  /** All cores, one after the other in any order, leave C += A*B, for every lda and every ncores. */
  method DcTeam(order: seq<nat>, ncores: nat, lda: nat, a: View, b: View, c: array<int>)
    requires 0 < ncores && OrderOf(order, ncores) && Square(lda, a, b, c.Length)
    modifies c
    ensures AddsProduct(old(c[..]), c[..], a, b, 0, lda, lda, lda, lda)
  {
    hide AddsInto, Square;
    DcPartition(ncores, lda);
    ghost var rows := DcShares(ncores, lda);
    ghost var states := [c[..]];
    for k := 0 to ncores
      invariant |states| == k + 1 && states[0] == old(c[..]) && states[k] == c[..]
      invariant forall i :: 0 <= i < k ==> AddsInto(states[i], states[i + 1], a, b, lda, rows[order[i]], lda, lda)
    {
      DcMatmul(order[k], ncores, lda, a, b, c);
      states := states + [c[..]];
    }
    TeamAdds(states, order, rows, a, b, lda, lda, lda, lda);
  }
}
