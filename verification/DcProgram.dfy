/** riscv-tests/mt/dc_matmul.c, all of it, run by ncores cores whose statements interleave. */
module DcProgram {
  import opened Strided
  import opened Team
  import opened CorePrograms
  import opened Kernels
  import opened SharedFills
  import opened KHalves
  import Barrier

  // ---------- the statements for two cores and 32 x 32 matrices ----------

  /** c[ri][rj] is register 8*rj + ri. */
  function DcRegisters(j: nat, i: nat): Kernels.Tile {
    Kernels.Tile(seq(16, n => j + n / REG_I), seq(16, n => i + n % REG_I))
  }

  /** The order in which they are loaded and stored. */
  function ColumnsFirst(): seq<nat> { seq(16, m requires 0 <= m => REG_I * (m % REG_J) + m / REG_J) }

  function DcTerm(a: View, b: View, j: nat, i: nat): (nat, int) -> Action {
    (n: nat, k: int) => Term(n, a.At(j + n / REG_I, k), b.At(k, i + n % REG_I))
  }

  /** One register block, for the inner indices of one cache block. */
  function DcTileWork(a: View, b: View, kk: int, j: nat, i: nat): seq<Action> {
    TileProgram(DcRegisters(j, i), LDA, ColumnsFirst(), Terms(16, 1, Up(kk, kk + BLOCK_K, 1), DcTerm(a, b, j, i)),
                ColumnsFirst())
  }

  /** The loop over i. */
  function DcStripWork(a: View, b: View, kk: int, j: int): seq<Action> {
    Each(Up(0, LDA, REG_I), i => DcTileWork(a, b, kk, Nat(j), Nat(i)))
  }

  /** The loop over j. */
  function DcBlockWork(a: View, b: View, jj: int, end: int, kk: int): seq<Action> {
    Each(Up(jj, if end < jj + BLOCK_J then end else jj + BLOCK_J, REG_J), j => DcStripWork(a, b, kk, j))
  }

  /** The loop over kk. */
  function DcSlices(a: View, b: View, jj: int, end: int, kkStart: int, kkEnd: int): seq<Action> {
    Each(Up(kkStart, kkEnd, BLOCK_K), kk => DcBlockWork(a, b, jj, end, kk))
  }

  /** The loop over jj: one of the two passes. */
  function DcPassWork(a: View, b: View, start: int, end: int, kkStart: int, kkEnd: int): seq<Action> {
    Each(Up(start, end, BLOCK_J), jj => DcSlices(a, b, jj, end, kkStart, kkEnd))
  }

  function DcFastWork(coreid: nat, a: View, b: View): seq<Action> {
    var start := coreid * (LDA / NCORES);
    var end := if coreid == NCORES - 1 then LDA else (coreid + 1) * (LDA / NCORES);
    DcPassWork(a, b, start, end, if coreid == 0 then 0 else LDA / 2, if coreid == 0 then LDA / 2 else LDA)
    + DcPassWork(a, b, start, end, if coreid != 0 then 0 else LDA / 2, if coreid != 0 then LDA / 2 else LDA)
  }

  // ---------- the statements for the other cases ----------

  function CellRegister(j: nat, i: nat): Kernels.Tile { Kernels.Tile([j], [i]) }

  function CellTerm(a: View, b: View, j: nat, i: nat): (nat, int) -> Action {
    (n: nat, k: int) => Term(n, a.At(j, k), b.At(k, i))
  }

  /** C[i + j*lda] += A[j*lda + k] * B[k*lda + i]: read the cell, add, write the cell. */
  function NaiveStep(lda: nat, a: View, b: View, i: nat, j: nat, k: int): seq<Action> {
    TileProgram(CellRegister(j, i), lda, InTurn(1), Terms(1, 1, Up(k, k + 1, 1), CellTerm(a, b, j, i)), InTurn(1))
  }

  function NaiveCell(lda: nat, a: View, b: View, i: int, j: int): seq<Action> {
    Each(Up(0, lda, 1), k => NaiveStep(lda, a, b, Nat(i), Nat(j), k))
  }

  function NaiveColumn(lda: nat, a: View, b: View, i: int): seq<Action> {
    Each(Up(0, lda, 1), j => NaiveCell(lda, a, b, i, j))
  }

  function NaiveWork(lda: nat, a: View, b: View): seq<Action> {
    Each(Up(0, lda, 1), i => NaiveColumn(lda, a, b, i))
  }

  /** matmul for one core. */
  function DcWork(coreid: nat, ncores: nat, lda: nat, a: View, b: View): seq<Action> {
    if ncores == NCORES && lda == LDA then DcFastWork(coreid, a, b)
    else if coreid > 0 then []
    else NaiveWork(lda, a, b)
  }

  // ---------- what the register blocks add ----------

  lemma DcCovers(j: nat, i: nat, kk: int, size: nat)
    requires j + REG_J <= LDA && i + REG_I <= LDA && LDA * LDA <= size
    ensures Covers(DcRegisters(j, i), Box(j, j + REG_J, i, i + REG_I, kk, kk + BLOCK_K), LDA, size)
  {
    var t, x := DcRegisters(j, i), Box(j, j + REG_J, i, i + REG_I, kk, kk + BLOCK_K);
    forall n: nat | n < 16
      ensures CellIn(t, n, x, LDA, size)
    {
    }
    forall r, c | x.i0 <= r < x.i1 && x.j0 <= c < x.j1
      ensures HasCell(t, r, c)
    {
      assert Kernels.At(t, REG_I * (r - j) + (c - i), r, c);
    }
  }

  lemma DcPlain(a: View, b: View, j: nat, i: nat)
    ensures PlainTerms(DcTerm(a, b, j, i), DcRegisters(j, i), a, b)
  {
    var term, t := DcTerm(a, b, j, i), DcRegisters(j, i);
    forall m: nat, k: int
      ensures TermAt(term, m, k)
    {
    }
    forall n: nat, k: int | n < 16
      ensures PlainTerm(term, n, k, a, b, t.rows[n], t.cols[n])
    {
    }
  }

  lemma AllColumns()
    ensures Names(ColumnsFirst(), 16)
  {
    forall n: nat | n < 16
      ensures Named(ColumnsFirst(), n)
    {
      assert ColumnsFirst()[REG_J * (n % REG_I) + n / REG_I] == n;
    }
  }

  lemma DcTileAdds(kk: int, j: nat, i: nat, site: Site)
    requires j + REG_J <= LDA && i + REG_I <= LDA && PlainSite(site, LDA)
    requires BoxCells(site, Box(j, j + REG_J, i, i + REG_I, kk, kk + BLOCK_K))
    ensures AddsBox(DcTileWork(site.a, site.b, kk, j, i), site, Box(j, j + REG_J, i, i + REG_I, kk, kk + BLOCK_K))
  {
    hide Covers, PlainTerms, Names, BoxCells, AddsBox, Up, TileProgram, DcTerm, ColumnsFirst;
    DcCovers(j, i, kk, site.size);
    DcPlain(site.a, site.b, j, i);
    AllColumns();
    UpLength(kk, kk + BLOCK_K);
    PlainTile(DcRegisters(j, i), ColumnsFirst(), ColumnsFirst(), 1, Up(kk, kk + BLOCK_K, 1), BLOCK_K,
              DcTerm(site.a, site.b, j, i), Box(j, j + REG_J, i, i + REG_I, kk, kk + BLOCK_K), site, true);
  }

  lemma DcStripAdds(kk: int, j: nat, site: Site)
    requires j + REG_J <= LDA && PlainSite(site, LDA) && BoxCells(site, Box(j, j + REG_J, 0, LDA, kk, kk + BLOCK_K))
    ensures AddsBox(DcStripWork(site.a, site.b, kk, j), site, Box(j, j + REG_J, 0, LDA, kk, kk + BLOCK_K))
  {
    hide AddsBox, DcTileWork, PlainSite;
    var body := i => DcTileWork(site.a, site.b, kk, Nat(j), Nat(i));
    var x := Box(j, j + REG_J, 0, LDA, kk, kk + BLOCK_K);
    forall i | i in Up(0, LDA, REG_I)
      ensures ColumnAt(i, body, site, x, REG_I, 0)
    {
      UpMembers(0, LDA, REG_I, 4, i);
      DcTileAdds(kk, j, i, site);
    }
    UpColumns(0, LDA, REG_I, 4, body, site, x);
  }

  lemma DcBlockAdds(jj: nat, end: int, kk: int, site: Site)
    requires jj + BLOCK_J <= end <= LDA && PlainSite(site, LDA)
    requires BoxCells(site, Box(jj, jj + BLOCK_J, 0, LDA, kk, kk + BLOCK_K))
    ensures AddsBox(DcBlockWork(site.a, site.b, jj, end, kk), site, Box(jj, jj + BLOCK_J, 0, LDA, kk, kk + BLOCK_K))
  {
    hide AddsBox, DcStripWork, PlainSite;
    var body := j => DcStripWork(site.a, site.b, kk, j);
    var x := Box(jj, jj + BLOCK_J, 0, LDA, kk, kk + BLOCK_K);
    forall j | j in Up(jj, jj + BLOCK_J, REG_J)
      ensures RowAt(j, body, site, x, REG_J, 0)
    {
      UpMembers(jj, jj + BLOCK_J, REG_J, 8, j);
      DcStripAdds(kk, j, site);
    }
    UpRows(jj, jj + BLOCK_J, REG_J, 8, body, site, x);
  }

  lemma OneStep(lo: int, hi: int, step: nat, body: int -> seq<Action>)
    requires step > 0 && hi == lo + step
    ensures Each(Up(lo, hi, step), body) == body(lo)
  {
    var list := Up(lo, hi, step);
    assert Up(lo + step, hi, step) == [];
    assert list == [lo];
    assert Each(list[1..], body) == [];
  }

  /** One pass: one block of rows and one half of the inner index. */
  lemma DcPassAdds(start: nat, end: int, kk: int, site: Site)
    requires end == start + BLOCK_J <= LDA && PlainSite(site, LDA)
    requires BoxCells(site, Box(start, end, 0, LDA, kk, kk + BLOCK_K))
    ensures AddsBox(DcPassWork(site.a, site.b, start, end, kk, kk + BLOCK_K), site,
                    Box(start, end, 0, LDA, kk, kk + BLOCK_K))
  {
    hide AddsBox, DcBlockWork, PlainSite, Up, Each;
    OneStep(start, end, BLOCK_J, jj => DcSlices(site.a, site.b, jj, end, kk, kk + BLOCK_K));
    OneStep(kk, kk + BLOCK_K, BLOCK_K, k => DcBlockWork(site.a, site.b, start, end, k));
    DcBlockAdds(start, end, kk, site);
  }

  /** The two halves in the order of the core. */
  lemma DcFastAdds(coreid: nat, site: Site)
    requires coreid < NCORES && PlainSite(site, LDA)
    requires BoxCells(site, Box(LDA / NCORES * coreid, LDA / NCORES * coreid + LDA / NCORES, 0, LDA, 0, LDA))
    ensures
      AddsBox(DcFastWork(coreid, site.a, site.b), site,
              Box(LDA / NCORES * coreid, LDA / NCORES * coreid + LDA / NCORES, 0, LDA, 0, LDA))
  {
    hide AddsBox, DcPassWork, PlainSite;
    var start, end := coreid * (LDA / NCORES), coreid * (LDA / NCORES) + LDA / NCORES;
    DcPassAdds(start, end, 0, site);
    DcPassAdds(start, end, LDA / 2, site);
    var first, second := DcPassWork(site.a, site.b, start, end, 0, LDA / 2),
        DcPassWork(site.a, site.b, start, end, LDA / 2, LDA);
    ThenSlices(if coreid == 0 then first else second, if coreid == 0 then second else first, site,
               Box(start, end, 0, LDA, 0, LDA), LDA / 2, coreid == 0);
  }

  // ---------- what the naive loops add ----------

  lemma NaiveStepAdds(lda: nat, i: nat, j: nat, k: int, site: Site)
    requires i < lda && j < lda && PlainSite(site, lda) && BoxCells(site, Box(j, j + 1, i, i + 1, k, k + 1))
    ensures AddsBox(NaiveStep(lda, site.a, site.b, i, j, k), site, Box(j, j + 1, i, i + 1, k, k + 1))
  {
    hide PlainTerms, Names, BoxCells, AddsBox, Up, TileProgram, CellTerm;
    var t, x := CellRegister(j, i), Box(j, j + 1, i, i + 1, k, k + 1);
    CellInside(lda, j, i);
    assert CellIn(t, 0, x, lda, site.size);
    assert Kernels.At(t, 0, j, i);
    CellPlain(site.a, site.b, j, i);
    AllNamed(1);
    UpLength(k, k + 1);
    PlainTile(t, InTurn(1), InTurn(1), 1, Up(k, k + 1, 1), 1, CellTerm(site.a, site.b, j, i), x, site, true);
  }

  lemma CellPlain(a: View, b: View, j: nat, i: nat)
    ensures PlainTerms(CellTerm(a, b, j, i), CellRegister(j, i), a, b)
  {
    var term := CellTerm(a, b, j, i);
    forall m: nat, k: int
      ensures TermAt(term, m, k)
    {
    }
    forall n: nat, k: int | n < 1
      ensures PlainTerm(term, n, k, a, b, j, i)
    {
    }
  }

  lemma NaiveCellAdds(lda: nat, i: nat, j: nat, site: Site)
    requires i < lda && j < lda && PlainSite(site, lda) && BoxCells(site, Box(j, j + 1, i, i + 1, 0, lda))
    ensures AddsBox(NaiveCell(lda, site.a, site.b, i, j), site, Box(j, j + 1, i, i + 1, 0, lda))
  {
    hide AddsBox, NaiveStep, PlainSite;
    var body := k => NaiveStep(lda, site.a, site.b, Nat(i), Nat(j), k);
    var x := Box(j, j + 1, i, i + 1, 0, lda);
    forall k | k in Up(0, lda, 1)
      ensures SliceAt(k, body, site, x, 1, 0)
    {
      NaiveStepAdds(lda, i, j, k, site);
    }
    UpSlices(0, lda, 1, lda, body, site, x);
  }

  lemma NaiveColumnAdds(lda: nat, i: nat, site: Site)
    requires i < lda && PlainSite(site, lda) && BoxCells(site, Box(0, lda, i, i + 1, 0, lda))
    ensures AddsBox(NaiveColumn(lda, site.a, site.b, i), site, Box(0, lda, i, i + 1, 0, lda))
  {
    hide AddsBox, NaiveCell, PlainSite;
    var body := j => NaiveCell(lda, site.a, site.b, i, j);
    var x := Box(0, lda, i, i + 1, 0, lda);
    forall j | j in Up(0, lda, 1)
      ensures RowAt(j, body, site, x, 1, 0)
    {
      UpMembers(0, lda, 1, lda, j);
      NaiveCellAdds(lda, i, j, site);
    }
    UpRows(0, lda, 1, lda, body, site, x);
  }

  lemma NaiveAdds(lda: nat, site: Site)
    requires PlainSite(site, lda) && BoxCells(site, Box(0, lda, 0, lda, 0, lda))
    ensures AddsBox(NaiveWork(lda, site.a, site.b), site, Box(0, lda, 0, lda, 0, lda))
  {
    hide AddsBox, NaiveColumn, PlainSite;
    var body := i => NaiveColumn(lda, site.a, site.b, i);
    var x := Box(0, lda, 0, lda, 0, lda);
    forall i | i in Up(0, lda, 1)
      ensures ColumnAt(i, body, site, x, 1, 0)
    {
      UpMembers(0, lda, 1, lda, i);
      NaiveColumnAdds(lda, i, site);
    }
    UpColumns(0, lda, 1, lda, body, site, x);
  }

  // ---------- one core and all cores ----------

  lemma DcWorkAdds(coreid: nat, ncores: nat, lda: nat, a: View, b: View, shared: seq<int>, size: nat)
    requires coreid < ncores && lda * lda <= size
    ensures
      AddsInRows(DcWork(coreid, ncores, lda, a, b), TeamSite(DcRows(coreid, ncores, lda), shared, 0, size, a, b, lda),
                 DcRows(coreid, ncores, lda))
  {
    hide AddsInRows, AddsBox, DcFastWork, NaiveWork, Rows, BoxCells, TeamSite, PlainSite;
    var site := TeamSite(DcRows(coreid, ncores, lda), shared, 0, size, a, b, lda);
    if ncores == NCORES && lda == LDA {
      SiteOfRows(DcRows(coreid, ncores, lda), shared, size, a, b, lda, LDA / NCORES * coreid,
                 LDA / NCORES * coreid + LDA / NCORES);
      DcFastAdds(coreid, site);
      BoxIsRows(DcFastWork(coreid, a, b), site, LDA / NCORES * coreid, LDA / NCORES * coreid + LDA / NCORES);
    } else if coreid > 0 {
      NoRows(site);
    } else {
      SiteOfRows(DcRows(coreid, ncores, lda), shared, size, a, b, lda, 0, lda);
      NaiveAdds(lda, site);
      BoxIsRows(NaiveWork(lda, a, b), site, 0, lda);
    }
  }

  function DcPrograms(ncores: nat, lda: nat, a: View, b: View): Programs {
    seq(ncores, t requires 0 <= t < ncores => DcWork(t, ncores, lda, a, b))
  }

  lemma DcFree(ncores: nat, lda: nat, a: View, b: View, size: nat)
    requires ncores > 0 && lda * lda <= size
    ensures Free(DcPrograms(ncores, lda, a, b), DcShares(ncores, lda), size, a, b, lda)
  {
    DcPartition(ncores, lda);
    hide AddsInRows, DcWork, DcRows, Partition, CellsOf;
    forall t: nat | t < ncores
      ensures FreeCore(DcPrograms(ncores, lda, a, b)[t], DcShares(ncores, lda)[t], size, a, b, lda)
    {
      forall shared: seq<int>
        ensures AddsInRows(DcWork(t, ncores, lda, a, b), TeamSite(DcRows(t, ncores, lda), shared, 0, size, a, b, lda),
                           DcRows(t, ncores, lda))
      {
        DcWorkAdds(t, ncores, lda, a, b, shared, size);
      }
    }
  }

  /** Over every interleaving of the cores, for every ncores and every lda: when all cores are done, C has
      gained A*B and nothing else of it has changed. */
  lemma DcEveryRun(ncores: nat, lda: nat, a: View, b: View, s0: State, schedule: seq<nat>)
    requires ncores > 0 && lda * lda <= |s0.c| && Started(DcPrograms(ncores, lda, a, b), s0.shared, s0)
    ensures
      var s := Run(DcPrograms(ncores, lda, a, b), s0, schedule);
      AllDone(DcPrograms(ncores, lda, a, b), s) ==> AddsProduct(s0.c, s.c, a, b, 0, lda, lda, lda, lda)
  {
    hide DcPrograms, Free;
    DcFree(ncores, lda, a, b, |s0.c|);
    FreeRun(DcPrograms(ncores, lda, a, b), DcShares(ncores, lda), a, b, lda, s0, schedule);
  }

  /** And if no core is starved, all cores come to an end. */
  lemma DcFairRun(ncores: nat, lda: nat, a: View, b: View, s0: State, f: nat -> nat) returns (j: nat)
    requires ncores > 0 && lda * lda <= |s0.c| && Started(DcPrograms(ncores, lda, a, b), s0.shared, s0)
    requires Barrier.Fair(f, ncores)
    ensures
      var s := StateAt(DcPrograms(ncores, lda, a, b), s0, f, j);
      AllDone(DcPrograms(ncores, lda, a, b), s) && AddsProduct(s0.c, s.c, a, b, 0, lda, lda, lda, lda)
  {
    assert |DcPrograms(ncores, lda, a, b)| == ncores;
    hide DcPrograms, Free, Barrier.Fair;
    DcFree(ncores, lda, a, b, |s0.c|);
    j := FreeFairRun(DcPrograms(ncores, lda, a, b), DcShares(ncores, lda), a, b, lda, s0, f);
  }

  /** What the method leaves in C is what the statements of the core leave there. */
  lemma DcMethodIsProgram(
    t: nat, ncores: nat, lda: nat, a: View, b: View, shared: seq<int>, regs: Registers, before: seq<int>,
    after: seq<int>)
    requires t < ncores && lda * lda <= |before|
    requires AddsInto(before, after, a, b, lda, DcRows(t, ncores, lda), lda, lda)
    ensures after == Solo(DcWork(t, ncores, lda, a, b), shared, Core(regs, before)).c
  {
    hide AddsInto, AddsInRows, DcWork, DcRows, CellsOf;
    DcWorkAdds(t, ncores, lda, a, b, shared, |before|);
    SameEffect(DcWork(t, ncores, lda, a, b), TeamSite(DcRows(t, ncores, lda), shared, 0, |before|, a, b, lda),
               DcRows(t, ncores, lda), Core(regs, before), after);
  }
}
