/** riscv-tests/mt/ck_matmul.c, all of it, run by ncores cores whose statements interleave. */
module CkProgram {
  import opened Arithmetic
  import opened Strided
  import opened Team
  import opened CorePrograms
  import opened Kernels
  import opened SharedFills
  import opened WrapLoop
  import opened WrapAround
  import Barrier

  // ---------- the statements ----------

  /** c1 .. c8: the cells of a 4 x 2 tile, row by row. */
  function CkRegisters(j: nat, i: nat): Kernels.Tile { Kernels.Tile(seq(8, n => j + n / 2), seq(8, n => i + n % 2)) }

  function CkTerm(a: View, b: View, j: nat, i: nat): (nat, int) -> Action {
    (n: nat, k: int) => Term(n, a.At(j + n / 2, k), b.At(k, i + n % 2))
  }

  function CkTileWork(lda: nat, a: View, b: View, j: nat, i: nat): seq<Action> {
    TileProgram(CkRegisters(j, i), lda, InTurn(8), Terms(8, 1, Up(0, lda, 1), CkTerm(a, b, j, i)), InTurn(8))
  }

  /** The loop over i. */
  function CkStripWork(lda: nat, a: View, b: View, j: int, ii: int): seq<Action> {
    Each(Up(ii, Min(ii + BSIZE, lda), 2), i => CkTileWork(lda, a, b, Nat(j), Nat(i)))
  }

  /** The loop over j. */
  function CkBlockWork(lda: nat, a: View, b: View, jj: int, ii: int): seq<Action> {
    Each(Up(jj, Min(jj + BSIZE, lda), 4), j => CkStripWork(lda, a, b, j, ii))
  }

  /** The loop over ii, around the end of the columns. */
  function CkColumnsWork(lda: nat, a: View, b: View, start: nat, jj: int): seq<Action>
    requires start < lda
  {
    Each(Visits(start, lda), ii => CkBlockWork(lda, a, b, jj, ii))
  }

  /** The loop over jj, from jj on. */
  function CkFrom(coreid: nat, ncores: nat, lda: nat, jj: nat, a: View, b: View): seq<Action>
    requires ncores > 0 && BSIZE * coreid < lda
  {
    Each(Up(jj, lda, BSIZE * ncores), j => CkColumnsWork(lda, a, b, BSIZE * coreid, j))
  }

  /** The loop over jj: matmul for one core. */
  function CkWork(coreid: nat, ncores: nat, lda: nat, a: View, b: View): seq<Action>
    requires ncores > 0
  {
    var start := BSIZE * coreid;
    if start >= lda then [] else CkFrom(coreid, ncores, lda, start, a, b)
  }

  // ---------- what one core adds ----------

  lemma CkCovers(j: nat, i: nat, lda: nat, size: nat)
    requires j + 4 <= lda && i + 2 <= lda && lda * lda <= size
    ensures Covers(CkRegisters(j, i), Box(j, j + 4, i, i + 2, 0, lda), lda, size)
  {
    var t, x := CkRegisters(j, i), Box(j, j + 4, i, i + 2, 0, lda);
    forall n: nat | n < 8
      ensures CellIn(t, n, x, lda, size)
    {
      CellInside(lda, j + n / 2, i + n % 2);
    }
    forall r, c | x.i0 <= r < x.i1 && x.j0 <= c < x.j1
      ensures HasCell(t, r, c)
    {
      assert Kernels.At(t, 2 * (r - j) + (c - i), r, c);
    }
  }

  lemma CkPlain(a: View, b: View, j: nat, i: nat)
    ensures PlainTerms(CkTerm(a, b, j, i), CkRegisters(j, i), a, b)
  {
    var term, t := CkTerm(a, b, j, i), CkRegisters(j, i);
    forall m: nat, k: int
      ensures TermAt(term, m, k)
    {
    }
    forall n: nat, k: int | n < 8
      ensures PlainTerm(term, n, k, a, b, t.rows[n], t.cols[n])
    {
    }
  }

  lemma CkTileAdds(lda: nat, j: nat, i: nat, site: Site)
    requires j + 4 <= lda && i + 2 <= lda && PlainSite(site, lda) && BoxCells(site, Box(j, j + 4, i, i + 2, 0, lda))
    ensures AddsBox(CkTileWork(lda, site.a, site.b, j, i), site, Box(j, j + 4, i, i + 2, 0, lda))
  {
    hide Covers, PlainTerms, Names, BoxCells, AddsBox, Up, TileProgram, CkTerm;
    CkCovers(j, i, lda, site.size);
    CkPlain(site.a, site.b, j, i);
    AllNamed(8);
    UpLength(0, lda);
    PlainTile(CkRegisters(j, i), InTurn(8), InTurn(8), 1, Up(0, lda, 1), lda, CkTerm(site.a, site.b, j, i),
              Box(j, j + 4, i, i + 2, 0, lda), site, true);
  }

  lemma CkStripAdds(lda: nat, j: nat, ii: nat, end: nat, n: nat, site: Site)
    requires j + 4 <= lda && ii + n * 2 == end == Min(ii + BSIZE, lda) && PlainSite(site, lda)
    requires BoxCells(site, Box(j, j + 4, ii, end, 0, lda))
    ensures AddsBox(CkStripWork(lda, site.a, site.b, j, ii), site, Box(j, j + 4, ii, end, 0, lda))
  {
    hide AddsBox, CkTileWork, PlainSite;
    var body := i => CkTileWork(lda, site.a, site.b, Nat(j), Nat(i));
    var x := Box(j, j + 4, ii, end, 0, lda);
    forall i | i in Up(ii, end, 2)
      ensures ColumnAt(i, body, site, x, 2, 0)
    {
      UpMembers(ii, end, 2, n, i);
      CkTileAdds(lda, j, i, site);
    }
    UpColumns(ii, end, 2, n, body, site, x);
  }

  lemma CkBlockAdds(lda: nat, jj: nat, ii: nat, jEnd: nat, iEnd: nat, m: nat, n: nat, site: Site)
    requires jj + m * 4 == jEnd == Min(jj + BSIZE, lda) && ii + n * 2 == iEnd == Min(ii + BSIZE, lda)
      && PlainSite(site, lda)
    requires BoxCells(site, Box(jj, jEnd, ii, iEnd, 0, lda))
    ensures AddsBox(CkBlockWork(lda, site.a, site.b, jj, ii), site, Box(jj, jEnd, ii, iEnd, 0, lda))
  {
    hide AddsBox, CkStripWork, PlainSite;
    var body := j => CkStripWork(lda, site.a, site.b, j, ii);
    var x := Box(jj, jEnd, ii, iEnd, 0, lda);
    forall j | j in Up(jj, jEnd, 4)
      ensures RowAt(j, body, site, x, 4, 0)
    {
      UpMembers(jj, jEnd, 4, m, j);
      CkStripAdds(lda, j, ii, iEnd, n, site);
    }
    UpRows(jj, jEnd, 4, m, body, site, x);
  }

  // ---------- around the end of the columns ----------

  lemma {:induction false} EachBoth(f: seq<int>, g: seq<int>, body: int -> seq<Action>)
    ensures Each(f + g, body) == Each(f, body) + Each(g, body)
    decreases |f|
  {
    if f == [] {
      assert f + g == g;
    } else {
      assert (f + g)[1..] == f[1..] + g;
      EachBoth(f[1..], g, body);
    }
  }

  lemma {:induction false} UpAt(lo: int, hi: int, step: nat, n: nat)
    requires step > 0 && hi == lo + n * step
    ensures |Up(lo, hi, step)| == n && forall k :: 0 <= k < n ==> Up(lo, hi, step)[k] == lo + k * step
    decreases n
  {
    if n > 0 {
      MulDistributes(n - 1, 1, step);
      MulMonotone(0, n - 1, step);
      UpAt(lo + step, hi, step, n - 1);
      forall k | 0 <= k < n
        ensures Up(lo, hi, step)[k] == lo + k * step
      {
        MulDistributes(k - 1, 1, step);
      }
    }
  }

  /** For a multiple of 16 the loop goes up to the end, and then from 0 up to where it started. */
  lemma VisitsSplit(v: nat, g: nat)
    requires v < g
    ensures Visits(BSIZE * v, BSIZE * g) == Up(BSIZE * v, BSIZE * g, BSIZE) + Up(0, BSIZE * v, BSIZE)
  {
    RoundOf(v, g);
    UpAt(BSIZE * v, BSIZE * g, BSIZE, g - v);
    UpAt(0, BSIZE * v, BSIZE, v);
    var visited: seq<int> := Visits(BSIZE * v, BSIZE * g);
    forall t | 0 <= t < g
      ensures visited[t] == (Up(BSIZE * v, BSIZE * g, BSIZE) + Up(0, BSIZE * v, BSIZE))[t]
    {
      BlockAt(v, g, t);
    }
  }

  lemma CkUpAdds(lda: nat, lo: nat, hi: nat, n: nat, jj: nat, jEnd: nat, m: nat, site: Site)
    requires jj + m * 4 == jEnd == Min(jj + BSIZE, lda) && hi == lo + n * BSIZE <= lda && PlainSite(site, lda)
    requires BoxCells(site, Box(jj, jEnd, 0, lda, 0, lda))
    ensures
      AddsBox(Each(Up(lo, hi, BSIZE), ii => CkBlockWork(lda, site.a, site.b, jj, ii)), site,
              Box(jj, jEnd, lo, hi, 0, lda))
  {
    hide AddsBox, CkBlockWork, PlainSite;
    var body := ii => CkBlockWork(lda, site.a, site.b, jj, ii);
    var x := Box(jj, jEnd, lo, hi, 0, lda);
    forall ii | ii in Up(lo, hi, BSIZE)
      ensures ColumnAt(ii, body, site, x, BSIZE, 0)
    {
      UpMembers(lo, hi, BSIZE, n, ii);
      CkBlockAdds(lda, jj, ii, jEnd, ii + BSIZE, m, 8, site);
    }
    UpColumns(lo, hi, BSIZE, n, body, site, x);
  }

  lemma CkRoundAdds(g: nat, v: nat, jj: nat, jEnd: nat, m: nat, site: Site)
    requires v < g && jj + m * 4 == jEnd == Min(jj + BSIZE, BSIZE * g) && PlainSite(site, BSIZE * g)
    requires BoxCells(site, Box(jj, jEnd, 0, BSIZE * g, 0, BSIZE * g))
    ensures
      AddsBox(CkColumnsWork(BSIZE * g, site.a, site.b, BSIZE * v, jj), site, Box(jj, jEnd, 0, BSIZE * g, 0, BSIZE * g))
  {
    var lda := BSIZE * g;
    var body := ii => CkBlockWork(lda, site.a, site.b, jj, ii);
    hide AddsBox, CkBlockWork, PlainSite, Visits, BoxCells;
    var f, h := Up(BSIZE * v, lda, BSIZE), Up(0, BSIZE * v, BSIZE);
    VisitsSplit(v, g);
    EachBoth(f, h, body);
    CkUpAdds(lda, BSIZE * v, lda, g - v, jj, jEnd, m, site);
    CkUpAdds(lda, 0, BSIZE * v, v, jj, jEnd, m, site);
    ThenColumns(Each(f, body), Each(h, body), site, Box(jj, jEnd, 0, lda, 0, lda), BSIZE * v, false);
  }

  lemma CkEightAdds(site: Site)
    requires PlainSite(site, 8) && BoxCells(site, Box(0, 8, 0, 8, 0, 8))
    ensures AddsBox(CkColumnsWork(8, site.a, site.b, 0, 0), site, Box(0, 8, 0, 8, 0, 8))
  {
    var body := ii => CkBlockWork(8, site.a, site.b, 0, ii);
    assert WrapLoop.At(0, 8, 1) == 0;
    var visited: seq<int> := Visits(0, 8);
    assert visited == [0];
    assert Each([0], body) == body(0) + Each([0][1..], body);
    assert body(0) + [] == body(0);
    CkBlockAdds(8, 0, 0, 8, 8, 2, 4, site);
  }

  lemma CkColumnsAdd(lda: nat, v: nat, jj: nat, site: Site)
    requires Fits(lda) && BSIZE * v < lda && jj < lda && jj % BSIZE == 0 && PlainSite(site, lda)
    requires BoxCells(site, Box(jj, Min(jj + BSIZE, lda), 0, lda, 0, lda))
    ensures
      AddsBox(CkColumnsWork(lda, site.a, site.b, BSIZE * v, jj), site, Box(jj, Min(jj + BSIZE, lda), 0, lda, 0, lda))
  {
    hide AddsBox, CkColumnsWork, PlainSite, BoxCells;
    if lda == 8 {
      CkEightAdds(site);
    } else {
      assert lda == BSIZE * (lda / BSIZE);
      CkRoundAdds(lda / BSIZE, v, jj, Min(jj + BSIZE, lda), 4, site);
    }
  }

  /** The rows of the core from jj on. */
  function RowsFrom(coreid: nat, ncores: nat, jj: nat, lda: nat): set<int>
    requires ncores > 0
  {
    CkRows(coreid, ncores, lda) - CkRows(coreid, ncores, Min(jj, lda))
  }

  lemma RowsFromNext(coreid: nat, ncores: nat, t: nat, jj: nat, lda: nat)
    requires coreid < ncores && jj == BSIZE * (coreid + t * ncores) && jj < lda
    ensures var block := Rows(jj, Min(jj + BSIZE, lda));
            && RowsFrom(coreid, ncores, jj, lda) == block + RowsFrom(coreid, ncores, jj + BSIZE * ncores, lda)
            && block !! RowsFrom(coreid, ncores, jj + BSIZE * ncores, lda) && block <= CkRows(coreid, ncores, lda)
  {
    NextRows(coreid, ncores, t, jj, lda);
    var next := Min(jj + BSIZE * ncores, lda);
    assert CkRows(coreid, ncores, next) <= CkRows(coreid, ncores, lda);
    hide CkRows, Rows;
  }

  lemma CkFromEnd(coreid: nat, ncores: nat, lda: nat, jj: nat, a: View, b: View, site: Site)
    requires ncores > 0 && BSIZE * coreid < lda <= jj
    ensures AddsInRows(CkFrom(coreid, ncores, lda, jj, a, b), site, RowsFrom(coreid, ncores, jj, lda))
  {
    NoRows(site);
    assert RowsFrom(coreid, ncores, jj, lda) == {};
  }

  lemma CkFromNext(coreid: nat, ncores: nat, lda: nat, jj: nat, a: View, b: View)
    requires ncores > 0 && BSIZE * coreid < lda && jj < lda
    ensures
      CkFrom(coreid, ncores, lda, jj, a, b) ==
      CkColumnsWork(lda, a, b, BSIZE * coreid, jj) + CkFrom(coreid, ncores, lda, jj + BSIZE * ncores, a, b)
  {
    assert Up(jj, lda, BSIZE * ncores)[1..] == Up(jj + BSIZE * ncores, lda, BSIZE * ncores);
  }

  /** One block of rows of the core. */
  lemma CkRowsAdd(coreid: nat, ncores: nat, lda: nat, n: nat, a: View, b: View, shared: seq<int>, size: nat)
    requires coreid < ncores && Fits(lda) && BSIZE * coreid < lda && BSIZE * n < lda && lda * lda <= size
    requires Rows(BSIZE * n, Min(BSIZE * n + BSIZE, lda)) <= CkRows(coreid, ncores, lda)
    ensures
      AddsInRows(CkColumnsWork(lda, a, b, BSIZE * coreid, BSIZE * n),
                 TeamSite(CkRows(coreid, ncores, lda), shared, 0, size, a, b, lda),
                 Rows(BSIZE * n, Min(BSIZE * n + BSIZE, lda)))
  {
    hide AddsInRows, AddsBox, CkColumnsWork, CkRows, Rows, BoxCells, CellsOf, TeamSite, Fits, PlainSite;
    var site := TeamSite(CkRows(coreid, ncores, lda), shared, 0, size, a, b, lda);
    var end := Min(BSIZE * n + BSIZE, lda);
    SiteOfRows(CkRows(coreid, ncores, lda), shared, size, a, b, lda, BSIZE * n, end);
    CkColumnsAdd(lda, coreid, BSIZE * n, site);
    BoxIsRows(CkColumnsWork(lda, a, b, BSIZE * coreid, BSIZE * n), site, BSIZE * n, end);
  }

  lemma {:induction false} CkFromAdds(
    coreid: nat, ncores: nat, lda: nat, t: nat, jj: nat, a: View, b: View, shared: seq<int>, size: nat)
    requires coreid < ncores && Fits(lda) && BSIZE * coreid < lda && jj == BSIZE * (coreid + t * ncores)
      && lda * lda <= size
    ensures
      AddsInRows(CkFrom(coreid, ncores, lda, jj, a, b),
                 TeamSite(CkRows(coreid, ncores, lda), shared, 0, size, a, b, lda),
                 RowsFrom(coreid, ncores, jj, lda))
    decreases lda - jj
  {
    hide AddsInRows, CkFrom, CkColumnsWork, RowsFrom, CkRows, Rows, Min, Fits, TeamSite;
    var site := TeamSite(CkRows(coreid, ncores, lda), shared, 0, size, a, b, lda);
    if jj >= lda {
      CkFromEnd(coreid, ncores, lda, jj, a, b, site);
    } else {
      var next := jj + BSIZE * ncores;
      MulDistributes(t, 1, ncores);
      CkFromNext(coreid, ncores, lda, jj, a, b);
      RowsFromNext(coreid, ncores, t, jj, lda);
      CkRowsAdd(coreid, ncores, lda, coreid + t * ncores, a, b, shared, size);
      CkFromAdds(coreid, ncores, lda, t + 1, next, a, b, shared, size);
      ThenMoreRows(CkColumnsWork(lda, a, b, BSIZE * coreid, jj), CkFrom(coreid, ncores, lda, next, a, b), site,
                   Rows(jj, Min(jj + BSIZE, lda)), RowsFrom(coreid, ncores, next, lda));
    }
  }

  lemma CkWorkAdds(coreid: nat, ncores: nat, lda: nat, a: View, b: View, shared: seq<int>, size: nat)
    requires coreid < ncores && Fits(lda) && lda * lda <= size
    ensures
      AddsInRows(CkWork(coreid, ncores, lda, a, b), TeamSite(CkRows(coreid, ncores, lda), shared, 0, size, a, b, lda),
                 CkRows(coreid, ncores, lda))
  {
    WrapAround.FirstRows(coreid, ncores, Min(BSIZE * coreid, lda));
    hide AddsInRows, CkColumnsWork, CkRows, CellsOf;
    if BSIZE * coreid < lda {
      assert 0 * ncores == 0;
      CkFromAdds(coreid, ncores, lda, 0, BSIZE * coreid, a, b, shared, size);
      assert RowsFrom(coreid, ncores, BSIZE * coreid, lda) == CkRows(coreid, ncores, lda);
    } else {
      NoRows(TeamSite(CkRows(coreid, ncores, lda), shared, 0, size, a, b, lda));
    }
  }

  // ---------- all cores ----------

  function CkPrograms(ncores: nat, lda: nat, a: View, b: View): Programs
    requires ncores > 0
  {
    seq(ncores, t requires 0 <= t < ncores => CkWork(t, ncores, lda, a, b))
  }

  lemma CkFree(ncores: nat, lda: nat, a: View, b: View, size: nat)
    requires ncores > 0 && Fits(lda) && lda * lda <= size
    ensures Free(CkPrograms(ncores, lda, a, b), CkShares(ncores, lda), size, a, b, lda)
  {
    CkPartition(ncores, lda);
    hide AddsInRows, CkWork, CkRows, Partition, CellsOf;
    forall t: nat | t < ncores
      ensures FreeCore(CkPrograms(ncores, lda, a, b)[t], CkShares(ncores, lda)[t], size, a, b, lda)
    {
      forall shared: seq<int>
        ensures AddsInRows(CkWork(t, ncores, lda, a, b), TeamSite(CkRows(t, ncores, lda), shared, 0, size, a, b, lda),
                           CkRows(t, ncores, lda))
      {
        CkWorkAdds(t, ncores, lda, a, b, shared, size);
      }
    }
  }

  /** Over every interleaving of the cores, for every ncores and every lda that fits: when all cores are
      done, C has gained A*B and nothing else of it has changed. */
  lemma CkEveryRun(ncores: nat, lda: nat, a: View, b: View, s0: State, schedule: seq<nat>)
    requires ncores > 0 && Fits(lda) && lda * lda <= |s0.c| && Started(CkPrograms(ncores, lda, a, b), s0.shared, s0)
    ensures
      var s := Run(CkPrograms(ncores, lda, a, b), s0, schedule);
      AllDone(CkPrograms(ncores, lda, a, b), s) ==> AddsProduct(s0.c, s.c, a, b, 0, lda, lda, lda, lda)
  {
    hide CkPrograms, Free;
    CkFree(ncores, lda, a, b, |s0.c|);
    FreeRun(CkPrograms(ncores, lda, a, b), CkShares(ncores, lda), a, b, lda, s0, schedule);
  }

  /** And if no core is starved, all cores come to an end. */
  lemma CkFairRun(ncores: nat, lda: nat, a: View, b: View, s0: State, f: nat -> nat) returns (j: nat)
    requires ncores > 0 && Fits(lda) && lda * lda <= |s0.c| && Started(CkPrograms(ncores, lda, a, b), s0.shared, s0)
    requires Barrier.Fair(f, ncores)
    ensures
      var s := StateAt(CkPrograms(ncores, lda, a, b), s0, f, j);
      AllDone(CkPrograms(ncores, lda, a, b), s) && AddsProduct(s0.c, s.c, a, b, 0, lda, lda, lda, lda)
  {
    assert |CkPrograms(ncores, lda, a, b)| == ncores;
    hide CkPrograms, Free, Barrier.Fair;
    CkFree(ncores, lda, a, b, |s0.c|);
    j := FreeFairRun(CkPrograms(ncores, lda, a, b), CkShares(ncores, lda), a, b, lda, s0, f);
  }

  /** What the method leaves in C is what the statements of the core leave there. */
  lemma CkMethodIsProgram(
    t: nat, ncores: nat, lda: nat, a: View, b: View, shared: seq<int>, regs: Registers, before: seq<int>,
    after: seq<int>)
    requires t < ncores && Fits(lda) && lda * lda <= |before|
    requires AddsInto(before, after, a, b, lda, CkRows(t, ncores, lda), lda, lda)
    ensures after == Solo(CkWork(t, ncores, lda, a, b), shared, Core(regs, before)).c
  {
    hide AddsInto, AddsInRows, CkWork, CkRows, CellsOf;
    CkWorkAdds(t, ncores, lda, a, b, shared, |before|);
    SameEffect(CkWork(t, ncores, lda, a, b), TeamSite(CkRows(t, ncores, lda), shared, 0, |before|, a, b, lda),
               CkRows(t, ncores, lda), Core(regs, before), after);
  }
}
