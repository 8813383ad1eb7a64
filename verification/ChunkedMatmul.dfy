/** riscv-tests/mt/ce_matmul.c: the product computed from the transposed copy BB of B, eight cells of
    a row at a time, the columns taken in as many chunks as there are cores. */
module ChunkedMatmul {
  import opened Strided
  import opened Team
  import opened Accumulators

  const LDA := 32

  /** BB holds the transpose of B. */
  ghost predicate HoldsTranspose(bb: View, b: View) {
    && bb.base == 0 && bb.ld == LDA && LDA * LDA <= |bb.data|
    && forall i, k :: 0 <= i < LDA && 0 <= k < LDA ==> bb.At(i, k) == b.At(k, i)
  }

  /** c += a1*b[k+0] through c += a8*b[k+7], for one of the eight accumulators. */
  method EightTerms(a: View, bb: View, ghost b: View, j: nat, i: nat, k: nat, c: int) returns (r: int)
    requires HoldsTranspose(bb, b) && i < LDA && k + 8 <= LDA
    requires forall x :: k <= x < k + 8 ==> a.Has(j, x)
    requires c == Dot(a, b, j, i, 0, k)
    ensures r == Dot(a, b, j, i, 0, k + 8)
  {
    assert forall x :: k <= x < k + 8 ==> bb.Has(i, x) && bb.At(i, x) == b.At(x, i);
    hide Dot, View.At, View.Has, HoldsTranspose;
    r := c;
    var x := 0;
    while x < 8
      invariant 0 <= x <= 8 && r == Dot(a, b, j, i, 0, k + x)
    {
      DotStep(a, b, j, i, 0, k + x);
      r := r + a.Get(j, k + x) * bb.Get(i, k + x);
      x := x + 1;
    }
  }

  /** The loop over k. */
  method EightSums(a: View, bb: View, ghost b: View, j: nat, i: nat) returns (t: Eight)
    requires HoldsTranspose(bb, b) && i + 8 <= LDA && forall x :: 0 <= x < LDA ==> a.Has(j, x)
    ensures t == EightAfter(a, b, j, i, 1, Eight(0, 0, 0, 0, 0, 0, 0, 0), 0, LDA)
  {
    hide Dot, View.Has, HoldsTranspose;
    t := Eight(0, 0, 0, 0, 0, 0, 0, 0);
    EightStart(a, b, j, i, 1, t, 0);
    var k := 0;
    while k < LDA
      invariant 0 <= k <= LDA && k % 8 == 0
      invariant t == EightAfter(a, b, j, i, 1, Eight(0, 0, 0, 0, 0, 0, 0, 0), 0, k)
    {
      var c1 := EightTerms(a, bb, b, j, i, k, t.x0);
      var c2 := EightTerms(a, bb, b, j, i + 1, k, t.x1);
      var c3 := EightTerms(a, bb, b, j, i + 2, k, t.x2);
      var c4 := EightTerms(a, bb, b, j, i + 3, k, t.x3);
      var c5 := EightTerms(a, bb, b, j, i + 4, k, t.x4);
      var c6 := EightTerms(a, bb, b, j, i + 5, k, t.x5);
      var c7 := EightTerms(a, bb, b, j, i + 6, k, t.x6);
      var c8 := EightTerms(a, bb, b, j, i + 7, k, t.x7);
      t := Eight(c1, c2, c3, c4, c5, c6, c7, c8);
      k := k + 8;
    }
  }

  /** C[i+n + j*lda] += v, the n cells before it having been done. */
  method AddNext(c: array<int>, ghost s0: seq<int>, ghost a: View, ghost b: View, j: nat, i: nat, n: nat, v: int)
    requires n < 8 && j < LDA && i + 8 <= LDA && LDA * LDA <= c.Length
    requires v == Dot(a, b, j, i + n, 0, LDA)
    requires Adds(s0, c[..], a, b, 0, LDA, Box(j, j + 1, i, i + n, 0, LDA))
    modifies c
    ensures Adds(s0, c[..], a, b, 0, LDA, Box(j, j + 1, i, i + n + 1, 0, LDA))
  {
    hide Adds, Dot;
    ghost var s1 := c[..];
    AddsCell(s1, a, b, 0, LDA, j, i + n, 0, LDA, s1[j * LDA + (i + n)] + v);
    c[i + n + j * LDA] := c[i + n + j * LDA] + v;
    AddsColumns(s0, s1, c[..], a, b, 0, LDA, Box(j, j + 1, i, i + n + 1, 0, LDA), i + n);
  }

  method AddFour(c: array<int>, ghost s0: seq<int>, ghost a: View, ghost b: View, j: nat, i: nat, n: nat, x0: int,
                 x1: int, x2: int, x3: int)
    requires n + 4 <= 8 && j < LDA && i + 8 <= LDA && LDA * LDA <= c.Length
    requires x0 == Dot(a, b, j, i + n, 0, LDA) && x1 == Dot(a, b, j, i + n + 1, 0, LDA)
    requires x2 == Dot(a, b, j, i + n + 2, 0, LDA) && x3 == Dot(a, b, j, i + n + 3, 0, LDA)
    requires Adds(s0, c[..], a, b, 0, LDA, Box(j, j + 1, i, i + n, 0, LDA))
    modifies c
    ensures Adds(s0, c[..], a, b, 0, LDA, Box(j, j + 1, i, i + n + 4, 0, LDA))
  {
    hide Adds, Dot;
    AddNext(c, s0, a, b, j, i, n, x0);
    AddNext(c, s0, a, b, j, i, n + 1, x1);
    AddNext(c, s0, a, b, j, i, n + 2, x2);
    AddNext(c, s0, a, b, j, i, n + 3, x3);
  }

  /** The body of the loop over j: eight cells of row j. */
  method CeTile(a: View, bb: View, ghost b: View, c: array<int>, j: nat, i: nat)
    requires Square(LDA, a, b, c.Length) && HoldsTranspose(bb, b) && j < LDA && i + 8 <= LDA
    modifies c
    ensures Adds(old(c[..]), c[..], a, b, 0, LDA, Box(j, j + 1, i, i + 8, 0, LDA))
  {
    ghost var s0 := c[..];
    assert forall x :: 0 <= x < LDA ==> a.Has(j, x);
    AddsNothing(s0, a, b, 0, LDA, Box(j, j + 1, i, i, 0, LDA));
    hide Adds, Dot, HoldsTranspose;
    var t := EightSums(a, bb, b, j, i);
    AddFour(c, s0, a, b, j, i, 0, t.x0, t.x1, t.x2, t.x3);
    AddFour(c, s0, a, b, j, i, 4, t.x4, t.x5, t.x6, t.x7);
  }

  /** The loop over j, for eight columns and the rows of one core. */
  method CeRows(a: View, bb: View, ghost b: View, c: array<int>, lo: nat, hi: nat, i: nat)
    requires Square(LDA, a, b, c.Length) && HoldsTranspose(bb, b) && lo <= hi <= LDA && i + 8 <= LDA
    modifies c
    ensures Adds(old(c[..]), c[..], a, b, 0, LDA, Box(lo, hi, i, i + 8, 0, LDA))
  {
    hide Adds, Square, HoldsTranspose;
    ghost var x := Box(lo, hi, i, i + 8, 0, LDA);
    AddsNothing(c[..], a, b, 0, LDA, x.(i1 := lo));
    var j := lo;
    while j < hi
      invariant lo <= j <= hi
      invariant Adds(old(c[..]), c[..], a, b, 0, LDA, x.(i1 := j))
    {
      ghost var before := c[..];
      CeTile(a, bb, b, c, j, i);
      AddsRows(old(c[..]), before, c[..], a, b, 0, LDA, x.(i1 := j + 1), j);
      j := j + 1;
    }
  }

  /** ncores is a number of cores for which the chunks are whole groups of eight columns. */
  predicate Chunks(ncores: nat) { ncores > 0 && LDA / ncores > 0 && LDA / ncores % 8 == 0 }

  lemma ChunkSizes(ncores: nat)
    requires Chunks(ncores)
    ensures (ncores == 1 && LDA / ncores == 32) || (ncores == 2 && LDA / ncores == 16)
        || (ncores == 4 && LDA / ncores == 8)
  {
    var w := LDA / ncores;
    assert w * ncores <= LDA && LDA < w * ncores + ncores;
    assert w == 8 || w == 16 || w == 24 || w == 32;
  }

  /** Where chunk number x begins: the first of the columns, and the first of the rows of core x. */
  function ChunkStart(ncores: nat, x: nat): nat
    requires ncores > 0
  {
    x * (LDA / ncores)
  }

  lemma ChunkStarts(ncores: nat, x: nat)
    requires Chunks(ncores) && x < ncores
    ensures ChunkStart(ncores, x) <= ChunkStart(ncores, x + 1) <= LDA
      && (ChunkStart(ncores, x + 1) - ChunkStart(ncores, x)) % 8 == 0
    ensures ChunkStart(ncores, 0) == 0 && ChunkStart(ncores, ncores) == LDA
  {
    ChunkSizes(ncores);
  }

  function CeMine(coreid: nat, ncores: nat): set<int>
    requires ncores > 0
  {
    Rows(ChunkStart(ncores, coreid), ChunkStart(ncores, coreid + 1))
  }

  /** ce_matmul.c matmul after the transposition, one core: C += A*B on the rows of that core. */
  method CeMultiply(coreid: nat, ncores: nat, a: View, bb: View, ghost b: View, c: array<int>)
    requires coreid < ncores && Chunks(ncores) && Square(LDA, a, b, c.Length) && HoldsTranspose(bb, b)
    modifies c
    ensures AddsInto(old(c[..]), c[..], a, b, LDA, CeMine(coreid, ncores), LDA, LDA)
  {
    ChunkStarts(ncores, coreid);
    hide Adds, AddsInto, Square, HoldsTranspose, Chunks, ChunkStart;
    var lo, hi := ChunkStart(ncores, coreid), ChunkStart(ncores, coreid + 1);
    CeChunks(ncores, a, bb, b, c, lo, hi);
    IntoBox(old(c[..]), c[..], a, b, LDA, lo, hi, LDA, LDA);
  }

  /** The loop over the chunks. */
  method CeChunks(ncores: nat, a: View, bb: View, ghost b: View, c: array<int>, lo: nat, hi: nat)
    requires Chunks(ncores) && Square(LDA, a, b, c.Length) && HoldsTranspose(bb, b) && lo <= hi <= LDA
    modifies c
    ensures Adds(old(c[..]), c[..], a, b, 0, LDA, Box(lo, hi, 0, LDA, 0, LDA))
  {
    ghost var x := Box(lo, hi, 0, LDA, 0, LDA);
    AddsNothing(c[..], a, b, 0, LDA, x.(j1 := 0));
    ChunkStarts(ncores, 0);
    hide Adds, Square, HoldsTranspose, Chunks, ChunkStart;
    var chunk := 0;
    while chunk < ncores
      invariant 0 <= chunk <= ncores
      invariant Adds(old(c[..]), c[..], a, b, 0, LDA, x.(j1 := ChunkStart(ncores, chunk)))
    {
      ghost var before := c[..];
      ChunkStarts(ncores, chunk);
      var start, end := ChunkStart(ncores, chunk), ChunkStart(ncores, chunk + 1);
      CeChunk(a, bb, b, c, lo, hi, start, end);
      AddsColumns(old(c[..]), before, c[..], a, b, 0, LDA, x.(j1 := end), start);
      chunk := chunk + 1;
    }
  }

  /** The loop over i within one chunk. */
  method CeChunk(a: View, bb: View, ghost b: View, c: array<int>, lo: nat, hi: nat, start: nat, end: nat)
    requires Square(LDA, a, b, c.Length) && HoldsTranspose(bb, b) && lo <= hi <= LDA && start <= end <= LDA
      && (end - start) % 8 == 0
    modifies c
    ensures Adds(old(c[..]), c[..], a, b, 0, LDA, Box(lo, hi, start, end, 0, LDA))
  {
    hide Adds, Square, HoldsTranspose;
    ghost var x := Box(lo, hi, start, end, 0, LDA);
    AddsNothing(c[..], a, b, 0, LDA, x.(j1 := start));
    var i := start;
    while i < end
      invariant start <= i <= end && (end - i) % 8 == 0
      invariant Adds(old(c[..]), c[..], a, b, 0, LDA, x.(j1 := i))
    {
      ghost var before := c[..];
      CeRows(a, bb, b, c, lo, hi, i);
      AddsColumns(old(c[..]), before, c[..], a, b, 0, LDA, x.(j1 := i + 8), i);
      i := i + 8;
    }
  }

  /** The rows of all the cores. */
  function CeShares(ncores: nat): seq<set<int>>
    requires 0 < ncores
  {
    seq(ncores, core requires 0 <= core < ncores => CeMine(core, ncores))
  }

  /** Every row has exactly one owner. */
  lemma CePartition(ncores: nat)
    requires Chunks(ncores)
    ensures Partition(CeShares(ncores), LDA)
  {
    ChunkSizes(ncores);
    var rows := CeShares(ncores);
    forall r
      ensures 0 <= r < LDA <==> Owned(rows, r)
    {
      if 0 <= r < LDA {
        assert r in rows[r / (LDA / ncores)];
      }
    }
  }

  /** All cores after the last barrier, one after the other in any order, leave C += A*B. */
  method CeTeam(order: seq<nat>, ncores: nat, a: View, bb: View, ghost b: View, c: array<int>)
    requires Chunks(ncores) && OrderOf(order, ncores)
    requires Square(LDA, a, b, c.Length) && HoldsTranspose(bb, b)
    modifies c
    ensures AddsProduct(old(c[..]), c[..], a, b, 0, LDA, LDA, LDA, LDA)
  {
    hide AddsInto, Square;
    CePartition(ncores);
    ghost var rows := CeShares(ncores);
    ghost var states := [c[..]];
    for k := 0 to ncores
      invariant |states| == k + 1 && states[0] == old(c[..]) && states[k] == c[..]
      invariant forall i :: 0 <= i < k ==> AddsInto(states[i], states[i + 1], a, b, LDA, rows[order[i]], LDA, LDA)
    {
      CeMultiply(order[k], ncores, a, bb, b, c);
      states := states + [c[..]];
    }
    TeamAdds(states, order, rows, a, b, LDA, LDA, LDA, LDA);
  }
}
