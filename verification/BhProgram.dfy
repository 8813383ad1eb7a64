/** riscv-tests/mt/bh_matmul.c, all of it, run by ncores cores whose statements interleave. */
module BhProgram {
  import opened Strided
  import opened Team
  import opened CorePrograms
  import opened Kernels
  import opened SharedFills
  import opened Backward
  import Barrier

  // ---------- the statements ----------

  /** tempC0 .. tempC7: eight cells of row j from column i on, to the right or to the left. */
  function BhRegisters(j: nat, i: nat, d: int): Kernels.Tile { Kernels.Tile(seq(8, n => j), seq(8, n => i + d * n)) }

  function BhTerm(a: View, b: View, j: nat, i: nat, d: int): (nat, int) -> Action {
    (n: nat, k: int) => Term(n, a.At(j, k), b.At(k, i + d * n))
  }

  /** The body of the loop over i: two inner indices at a time, upwards or downwards. */
  function BhTile(lda: nat, a: View, b: View, j: nat, i: nat, d: int, ks: seq<int>): seq<Action> {
    TileProgram(BhRegisters(j, i, d), lda, InTurn(8), Terms(8, 2, ks, BhTerm(a, b, j, i, d)), InTurn(8))
  }

  function ForwardRow(lda: nat, a: View, b: View, m: int, j: int): seq<Action> {
    Each(Up(0, lda, 8), i => BhTile(lda, a, b, Nat(j), Nat(i), 1, Up(Half(lda, Nat(m)), Half(lda, Nat(m + 1)), 1)))
  }

  function ForwardSliceWork(lda: nat, a: View, b: View, m: int): seq<Action> {
    Each(Up(0, lda / 2, 1), j => ForwardRow(lda, a, b, m, j))
  }

  function BackwardRow(lda: nat, a: View, b: View, m: int, j: int): seq<Action> {
    Each(Down(lda - 1, 0, 8), i => BhTile(lda, a, b, Nat(j), Nat(i), -1,
                                          Down(Half(lda, Nat(m)) - 1, Half(lda, Nat(m - 1)), 1)))
  }

  function BackwardSliceWork(lda: nat, a: View, b: View, m: int): seq<Action> {
    Each(Down(lda - 1, lda / 2, 1), j => BackwardRow(lda, a, b, m, j))
  }

  /** matmul for one core: the loops over m run from 0 to 1 and from 2 to 1. */
  function BhWork(coreid: nat, ncores: nat, lda: nat, a: View, b: View): seq<Action> {
    if coreid > 1 then []
    else
      (if coreid == 0 then ForwardSliceWork(lda, a, b, 0) + ForwardSliceWork(lda, a, b, 1) else [])
      + (if coreid == 1 || ncores == 1 then BackwardSliceWork(lda, a, b, 2) + BackwardSliceWork(lda, a, b, 1) else [])
  }

  // ---------- what one core adds ----------

  /** The columns of a tile. */
  function TileBox(j: nat, i: nat, d: int, lo: int, hi: int): Box {
    if d == 1 then Box(j, j + 1, i, i + 8, lo, hi) else Box(j, j + 1, i - 7, i + 1, lo, hi)
  }

  predicate TileOk(lda: nat, j: nat, i: nat, d: int) {
    j < lda && ((d == 1 && i + 8 <= lda) || (d == -1 && 7 <= i < lda))
  }

  lemma BhCovers(lda: nat, j: nat, i: nat, d: int, lo: int, hi: int, size: nat)
    requires TileOk(lda, j, i, d) && lda * lda <= size
    ensures Covers(BhRegisters(j, i, d), TileBox(j, i, d, lo, hi), lda, size)
  {
    var t, x := BhRegisters(j, i, d), TileBox(j, i, d, lo, hi);
    forall n: nat | n < 8
      ensures CellIn(t, n, x, lda, size)
    {
      CellInside(lda, j, i + d * n);
    }
    forall r, c | x.i0 <= r < x.i1 && x.j0 <= c < x.j1
      ensures HasCell(t, r, c)
    {
      assert At(t, if d == 1 then c - i else i - c, r, c);
    }
  }

  lemma BhPlain(a: View, b: View, j: nat, i: nat, d: int)
    ensures PlainTerms(BhTerm(a, b, j, i, d), BhRegisters(j, i, d), a, b)
  {
    var term, t := BhTerm(a, b, j, i, d), BhRegisters(j, i, d);
    forall m: nat, k: int
      ensures TermAt(term, m, k)
    {
    }
    forall n: nat, k: int | n < 8
      ensures PlainTerm(term, n, k, a, b, t.rows[n], t.cols[n])
    {
    }
  }

  lemma BhTileAdds(lda: nat, j: nat, i: nat, d: int, lo: int, hi: int, m: nat, site: Site)
    requires TileOk(lda, j, i, d) && hi == lo + m * 2 && PlainSite(site, lda)
      && BoxCells(site, TileBox(j, i, d, lo, hi))
    ensures
      AddsBox(BhTile(lda, site.a, site.b, j, i, d, if d == 1 then Up(lo, hi, 1) else Down(hi - 1, lo, 1)), site,
              TileBox(j, i, d, lo, hi))
  {
    hide Covers, PlainTerms, Names, BoxCells, AddsBox, Up, Down, TileProgram, BhTerm;
    BhCovers(lda, j, i, d, lo, hi, site.size);
    BhPlain(site.a, site.b, j, i, d);
    AllNamed(8);
    UpLength(lo, hi);
    DownLength(hi - 1, lo);
    PlainTile(BhRegisters(j, i, d), InTurn(8), InTurn(8), 2, if d == 1 then Up(lo, hi, 1) else Down(hi - 1, lo, 1), m,
              BhTerm(site.a, site.b, j, i, d), TileBox(j, i, d, lo, hi), site, d == 1);
  }

  /** The halves of the inner index, with lda == 8q. */
  lemma HalfBounds(lda: nat, q: nat, m: nat)
    requires lda == 8 * q && m < 2
    ensures Half(lda, m) == 4 * q * m && Half(lda, m + 1) == Half(lda, m) + 4 * q && Half(lda, 0) == 0
      && Half(lda, 2) == lda
  {
    Halves(lda, q);
  }

  lemma ForwardRowAdds(lda: nat, q: nat, m: nat, j: nat, site: Site)
    requires lda == 8 * q && m < 2 && j < lda && PlainSite(site, lda)
    requires BoxCells(site, Box(j, j + 1, 0, lda, Half(lda, m), Half(lda, m + 1)))
    ensures AddsBox(ForwardRow(lda, site.a, site.b, m, j), site, Box(j, j + 1, 0, lda, Half(lda, m), Half(lda, m + 1)))
  {
    hide AddsBox, BhTile, Half, PlainSite;
    HalfBounds(lda, q, m);
    var lo, hi := Half(lda, m), Half(lda, m + 1);
    var body := i => BhTile(lda, site.a, site.b, Nat(j), Nat(i), 1, Up(Half(lda, Nat(m)), Half(lda, Nat(m + 1)), 1));
    var x := Box(j, j + 1, 0, lda, lo, hi);
    forall i | i in Up(0, lda, 8)
      ensures ColumnAt(i, body, site, x, 8, 0)
    {
      UpMembers(0, lda, 8, q, i);
      BhTileAdds(lda, j, i, 1, lo, hi, 2 * q, site);
    }
    UpColumns(0, lda, 8, q, body, site, x);
  }

  lemma ForwardSliceAdds(lda: nat, q: nat, m: nat, site: Site)
    requires lda == 8 * q && m < 2 && PlainSite(site, lda)
    requires BoxCells(site, Box(0, lda / 2, 0, lda, Half(lda, m), Half(lda, m + 1)))
    ensures
      AddsBox(ForwardSliceWork(lda, site.a, site.b, m), site, Box(0, lda / 2, 0, lda, Half(lda, m), Half(lda, m + 1)))
  {
    hide AddsBox, ForwardRow, Half, PlainSite;
    var body := j => ForwardRow(lda, site.a, site.b, m, j);
    var x := Box(0, lda / 2, 0, lda, Half(lda, m), Half(lda, m + 1));
    forall j | j in Up(0, lda / 2, 1)
      ensures RowAt(j, body, site, x, 1, 0)
    {
      UpMembers(0, lda / 2, 1, lda / 2, j);
      ForwardRowAdds(lda, q, m, j, site);
    }
    UpRows(0, lda / 2, 1, lda / 2, body, site, x);
  }

  lemma BackwardRowAdds(lda: nat, q: nat, m: nat, j: nat, site: Site)
    requires lda == 8 * q && 1 <= m <= 2 && j < lda && PlainSite(site, lda)
    requires BoxCells(site, Box(j, j + 1, 0, lda, Half(lda, m - 1), Half(lda, m)))
    ensures AddsBox(BackwardRow(lda, site.a, site.b, m, j), site, Box(j, j + 1, 0, lda, Half(lda, m - 1), Half(lda, m)))
  {
    hide AddsBox, BhTile, Half, PlainSite;
    HalfBounds(lda, q, m - 1);
    var lo, hi := Half(lda, m - 1), Half(lda, m);
    var body := i => BhTile(lda, site.a, site.b, Nat(j), Nat(i), -1,
                            Down(Half(lda, Nat(m)) - 1, Half(lda, Nat(m - 1)), 1));
    var x := Box(j, j + 1, 0, lda, lo, hi);
    forall i | i in Down(lda - 1, 0, 8)
      ensures ColumnAt(i, body, site, x, 8, 7)
    {
      DownMembers(lda - 1, 0, 8, q, i);
      BhTileAdds(lda, j, i, -1, lo, hi, 2 * q, site);
    }
    DownColumns(lda - 1, 0, 8, q, body, site, x);
  }

  lemma BackwardSliceAdds(lda: nat, q: nat, m: nat, site: Site)
    requires lda == 8 * q && 1 <= m <= 2 && PlainSite(site, lda)
    requires BoxCells(site, Box(lda / 2, lda, 0, lda, Half(lda, m - 1), Half(lda, m)))
    ensures
      AddsBox(BackwardSliceWork(lda, site.a, site.b, m), site,
              Box(lda / 2, lda, 0, lda, Half(lda, m - 1), Half(lda, m)))
  {
    hide AddsBox, BackwardRow, Half, PlainSite;
    var body := j => BackwardRow(lda, site.a, site.b, m, j);
    var x := Box(lda / 2, lda, 0, lda, Half(lda, m - 1), Half(lda, m));
    forall j | j in Down(lda - 1, lda / 2, 1)
      ensures RowAt(j, body, site, x, 1, 0)
    {
      DownMembers(lda - 1, lda / 2, 1, lda - lda / 2, j);
      BackwardRowAdds(lda, q, m, j, site);
    }
    DownRows(lda - 1, lda / 2, 1, lda - lda / 2, body, site, x);
  }

  lemma SliceCells(site: Site, lo: int, hi: int, lda: nat, k: int)
    requires BoxCells(site, Box(lo, hi, 0, lda, 0, lda))
    ensures BoxCells(site, Box(lo, hi, 0, lda, 0, k)) && BoxCells(site, Box(lo, hi, 0, lda, k, lda))
  {
  }

  lemma ForwardAdds(lda: nat, q: nat, site: Site)
    requires lda == 8 * q == site.ld && PlainSite(site, lda) && BoxCells(site, Box(0, lda / 2, 0, lda, 0, lda))
    ensures AddsInRows(ForwardSliceWork(lda, site.a, site.b, 0) + ForwardSliceWork(lda, site.a, site.b, 1), site,
                       Rows(0, lda / 2))
  {
    hide AddsBox, AddsInRows, ForwardSliceWork, Half, PlainSite, BoxCells, Rows;
    HalfBounds(lda, q, 0);
    HalfBounds(lda, q, 1);
    var f, g := ForwardSliceWork(lda, site.a, site.b, 0), ForwardSliceWork(lda, site.a, site.b, 1);
    SliceCells(site, 0, lda / 2, lda, Half(lda, 1));
    ForwardSliceAdds(lda, q, 0, site);
    ForwardSliceAdds(lda, q, 1, site);
    ThenSlices(f, g, site, Box(0, lda / 2, 0, lda, 0, lda), Half(lda, 1), true);
    BoxIsRows(f + g, site, 0, lda / 2);
  }

  lemma BackwardAdds(lda: nat, q: nat, site: Site)
    requires lda == 8 * q == site.ld && PlainSite(site, lda) && BoxCells(site, Box(lda / 2, lda, 0, lda, 0, lda))
    ensures AddsInRows(BackwardSliceWork(lda, site.a, site.b, 2) + BackwardSliceWork(lda, site.a, site.b, 1), site,
                       Rows(lda / 2, lda))
  {
    hide AddsBox, AddsInRows, BackwardSliceWork, Half, PlainSite, BoxCells, Rows;
    HalfBounds(lda, q, 0);
    HalfBounds(lda, q, 1);
    var f, g := BackwardSliceWork(lda, site.a, site.b, 2), BackwardSliceWork(lda, site.a, site.b, 1);
    SliceCells(site, lda / 2, lda, lda, Half(lda, 1));
    BackwardSliceAdds(lda, q, 2, site);
    BackwardSliceAdds(lda, q, 1, site);
    ThenSlices(f, g, site, Box(lda / 2, lda, 0, lda, 0, lda), Half(lda, 1), false);
    BoxIsRows(f + g, site, lda / 2, lda);
  }

  /** What one core does, from the two halves. */
  lemma BhWorkAdds(coreid: nat, ncores: nat, lda: nat, a: View, b: View, shared: seq<int>, size: nat)
    requires coreid < ncores && lda % 8 == 0 && lda * lda <= size
    ensures
      AddsInRows(BhWork(coreid, ncores, lda, a, b), TeamSite(BhRows(coreid, ncores, lda), shared, 0, size, a, b, lda),
                 BhRows(coreid, ncores, lda))
  {
    hide AddsInRows, ForwardSliceWork, BackwardSliceWork, Rows, BoxCells, TeamSite, PlainSite;
    var site := TeamSite(BhRows(coreid, ncores, lda), shared, 0, size, a, b, lda);
    var forward := ForwardSliceWork(lda, a, b, 0) + ForwardSliceWork(lda, a, b, 1);
    var backward := BackwardSliceWork(lda, a, b, 2) + BackwardSliceWork(lda, a, b, 1);
    NoRows(site);
    if coreid == 0 {
      SiteOfRows(BhRows(coreid, ncores, lda), shared, size, a, b, lda, 0, lda / 2);
      ForwardAdds(lda, lda / 8, site);
    }
    if coreid == 1 || ncores == 1 {
      SiteOfRows(BhRows(coreid, ncores, lda), shared, size, a, b, lda, lda / 2, lda);
      BackwardAdds(lda, lda / 8, site);
    }
    HalvesApart(lda);
    if coreid <= 1 {
      ThenMoreRows(if coreid == 0 then forward else [], if coreid == 1 || ncores == 1 then backward else [], site,
                   if coreid == 0 then Rows(0, lda / 2) else {},
                   if coreid == 1 || ncores == 1 then Rows(lda / 2, lda) else {});
    }
  }

  lemma HalvesApart(lda: nat)
    ensures Rows(0, lda / 2) !! Rows(lda / 2, lda)
  {
  }

  // ---------- all cores ----------

  function BhPrograms(ncores: nat, lda: nat, a: View, b: View): Programs {
    seq(ncores, t requires 0 <= t < ncores => BhWork(t, ncores, lda, a, b))
  }

  lemma BhFree(ncores: nat, lda: nat, a: View, b: View, size: nat)
    requires ncores > 0 && lda % 8 == 0 && lda * lda <= size
    ensures Free(BhPrograms(ncores, lda, a, b), BhShares(ncores, lda), size, a, b, lda)
  {
    BhPartition(ncores, lda);
    hide AddsInRows, BhWork, BhRows, Partition, CellsOf;
    forall t: nat | t < ncores
      ensures FreeCore(BhPrograms(ncores, lda, a, b)[t], BhShares(ncores, lda)[t], size, a, b, lda)
    {
      forall shared: seq<int>
        ensures AddsInRows(BhWork(t, ncores, lda, a, b), TeamSite(BhRows(t, ncores, lda), shared, 0, size, a, b, lda),
                           BhRows(t, ncores, lda))
      {
        BhWorkAdds(t, ncores, lda, a, b, shared, size);
      }
    }
  }

  /** Over every interleaving of the cores, for every ncores and every multiple of 8: when all cores are
      done, C has gained A*B and nothing else of it has changed. */
  lemma BhEveryRun(ncores: nat, lda: nat, a: View, b: View, s0: State, schedule: seq<nat>)
    requires ncores > 0 && lda % 8 == 0 && lda * lda <= |s0.c| && Started(BhPrograms(ncores, lda, a, b), s0.shared, s0)
    ensures
      var s := Run(BhPrograms(ncores, lda, a, b), s0, schedule);
      AllDone(BhPrograms(ncores, lda, a, b), s) ==> AddsProduct(s0.c, s.c, a, b, 0, lda, lda, lda, lda)
  {
    hide BhPrograms, Free;
    BhFree(ncores, lda, a, b, |s0.c|);
    FreeRun(BhPrograms(ncores, lda, a, b), BhShares(ncores, lda), a, b, lda, s0, schedule);
  }

  /** And if no core is starved, all cores come to an end. */
  lemma BhFairRun(ncores: nat, lda: nat, a: View, b: View, s0: State, f: nat -> nat) returns (j: nat)
    requires ncores > 0 && lda % 8 == 0 && lda * lda <= |s0.c| && Started(BhPrograms(ncores, lda, a, b), s0.shared, s0)
    requires Barrier.Fair(f, ncores)
    ensures
      var s := StateAt(BhPrograms(ncores, lda, a, b), s0, f, j);
      AllDone(BhPrograms(ncores, lda, a, b), s) && AddsProduct(s0.c, s.c, a, b, 0, lda, lda, lda, lda)
  {
    assert |BhPrograms(ncores, lda, a, b)| == ncores;
    hide BhPrograms, Free, Barrier.Fair;
    BhFree(ncores, lda, a, b, |s0.c|);
    j := FreeFairRun(BhPrograms(ncores, lda, a, b), BhShares(ncores, lda), a, b, lda, s0, f);
  }

  /** What the method leaves in C is what the statements of the core leave there. */
  lemma BhMethodIsProgram(
    t: nat, ncores: nat, lda: nat, a: View, b: View, shared: seq<int>, regs: Registers, before: seq<int>,
    after: seq<int>)
    requires t < ncores && lda % 8 == 0 && lda * lda <= |before|
    requires AddsInto(before, after, a, b, lda, BhRows(t, ncores, lda), lda, lda)
    ensures after == Solo(BhWork(t, ncores, lda, a, b), shared, Core(regs, before)).c
  {
    hide AddsInto, AddsInRows, BhWork, BhRows, CellsOf;
    BhWorkAdds(t, ncores, lda, a, b, shared, |before|);
    SameEffect(BhWork(t, ncores, lda, a, b), TeamSite(BhRows(t, ncores, lda), shared, 0, |before|, a, b, lda),
               BhRows(t, ncores, lda), Core(regs, before), after);
  }
}
