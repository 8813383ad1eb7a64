/** riscv-tests/mt/dm_matmul.c, all of it, run by ncores cores whose statements interleave: the copy
    of B into the shared B1, the barrier, and the product, which the last core reads B1 for. */
module DmProgram {
  import opened Strided
  import opened Team
  import opened CorePrograms
  import opened Kernels
  import opened SharedFills
  import opened CopiedMatmul
  import Barrier

  // ---------- the statements ----------

  /** temp, temp1, temp2, temp3, temp_1, ...: the sixteen cells of a 4 x 4 block, column by column. */
  function DmRegisters(i: nat, j: nat): Kernels.Tile { Kernels.Tile(seq(16, n => i + n % 4), seq(16, n => j + n / 4)) }

  /** One product of the innermost loop; the last core has the element of B from B1. */
  function DmTerm(lda: nat, a: View, b: View, last: bool, i: nat, j: nat): (nat, int) -> Action {
    (n: nat, k: int) =>
      if last then SharedTerm(n, a.At(i + n % 4, k), if k < 0 then 0 else j + n / 4 + k * lda)
      else Term(n, a.At(i + n % 4, k), b.At(k, j + n / 4))
  }

  function DmTerms(lda: nat, a: View, b: View, last: bool, i: nat, j: nat): seq<Action> {
    Terms(16, 1, Up(0, lda, 1), DmTerm(lda, a, b, last, i, j))
  }

  function DmBlock(lda: nat, a: View, b: View, last: bool, i: nat, j: nat): seq<Action> {
    TileProgram(DmRegisters(i, j), lda, InTurn(16), DmTerms(lda, a, b, last, i, j), InTurn(16))
  }

  /** The loop over j. */
  function DmRowWork(lda: nat, a: View, b: View, last: bool, i: int): seq<Action> {
    Each(Up(0, lda / 4 * 4, 4), j => DmBlock(lda, a, b, last, Nat(i), Nat(j)))
  }

  /** The loop over i. */
  function DmWork(coreid: nat, ncores: nat, lda: nat, a: View, b: View): seq<Action>
    requires ncores > 0
  {
    Each(Up(DmStart(ncores, lda, coreid), DmEnd(ncores, lda, coreid) / 4 * 4, 4),
         i => DmRowWork(lda, a, b, coreid == ncores - 1, i))
  }

  /** The whole of matmul for one core. */
  function DmMatmul(coreid: nat, ncores: nat, lda: nat, a: View, b: View): seq<Action>
    requires ncores > 0
  {
    DmFill(lda, ncores, b, coreid) + DmWork(coreid, ncores, lda, a, b)
  }

  // ---------- what one core adds ----------

  lemma RegistersCover(i: nat, j: nat, lda: nat, size: nat)
    requires i + 4 <= lda && j + 4 <= lda && lda * lda <= size
    ensures Covers(DmRegisters(i, j), Box(i, i + 4, j, j + 4, 0, lda), lda, size)
  {
    var t, x := DmRegisters(i, j), Box(i, i + 4, j, j + 4, 0, lda);
    forall n: nat | n < 16
      ensures CellIn(t, n, x, lda, size)
    {
      CellInside(lda, i + n % 4, j + n / 4);
    }
    forall r, c | x.i0 <= r < x.i1 && x.j0 <= c < x.j1
      ensures HasCell(t, r, c)
    {
      assert At(t, (r - i) + 4 * (c - j), r, c);
    }
  }

  /** The site of a core of dm that owns the rows from lo to hi: the shared array holds a copy of B. */
  ghost predicate DmSite(site: Site, lda: nat, lo: int, hi: int) {
    && site.ld == lda && lda * lda <= site.size && site.bound == lda * lda && site.b.ld == lda
    && Copies(lda * lda, site.b, site.shared) && BoxCells(site, Box(lo, hi, 0, lda, 0, lda))
  }

  lemma DmProducts(lda: nat, last: bool, i: nat, j: nat, site: Site, n: nat)
    requires i + 4 <= lda && j + 4 <= lda && n < 16 && site.b.ld == lda && Copies(lda * lda, site.b, site.shared)
    ensures Multiplies(DmTerm(lda, site.a, site.b, last, i, j), site.shared, n, site.a, site.b, i + n % 4, j + n / 4,
                       0, lda)
  {
    var term := DmTerm(lda, site.a, site.b, last, i, j);
    forall k | 0 <= k < lda
      ensures Product(term(n, k), site.shared) == site.a.At(i + n % 4, k) * site.b.At(k, j + n / 4)
    {
      CellInside(lda, k, j + n / 4);
      assert site.shared[k * lda + (j + n / 4)] == site.b.At(0, k * lda + (j + n / 4));
    }
  }

  lemma DmTermsAre(lda: nat, a: View, b: View, last: bool, i: nat, j: nat)
    ensures TermOf(DmTerm(lda, a, b, last, i, j))
  {
    var term := DmTerm(lda, a, b, last, i, j);
    forall m: nat, k: int
      ensures TermAt(term, m, k)
    {
    }
  }

  lemma DmBlockComputes(lda: nat, last: bool, i: nat, j: nat, site: Site)
    requires i + 4 <= lda && j + 4 <= lda && site.b.ld == lda && Copies(lda * lda, site.b, site.shared)
    ensures
      Computes(DmTerms(lda, site.a, site.b, last, i, j), DmRegisters(i, j), Box(i, i + 4, j, j + 4, 0, lda), site)
  {
    var t, x := DmRegisters(i, j), Box(i, i + 4, j, j + 4, 0, lda);
    var term := DmTerm(lda, site.a, site.b, last, i, j);
    hide Terms, Copies, SumOf, Dot, Up, OnlyTerms, Multiplies, DmTerm, TermOf;
    UpLength(0, lda);
    DmTermsAre(lda, site.a, site.b, last, i, j);
    forall n: nat | n < |t.rows|
      ensures SumsTo(DmTerms(lda, site.a, site.b, last, i, j), t, x, site, n)
    {
      DmProducts(lda, last, i, j, site, n);
      SumUp(0, lda, term, site.shared, n, site.a, site.b, i + n % 4, j + n / 4);
      TermsSum(16, 1, Up(0, lda, 1), lda, term, site.shared, n);
    }
    TermsSum(16, 1, Up(0, lda, 1), lda, term, site.shared, 0);
  }

  lemma DmTermsWork(lda: nat, a: View, b: View, last: bool, i: nat, j: nat)
    requires j + 4 <= lda
    ensures TermsWork(DmTerms(lda, a, b, last, i, j), lda * lda)
  {
    var term := DmTerm(lda, a, b, last, i, j);
    DmTermsAre(lda, a, b, last, i, j);
    forall n: nat, k: int | n < 16 && 0 <= k < lda
      ensures TermBounded(term, n, k, lda * lda)
    {
      CellInside(lda, k, j + n / 4);
    }
    UpLength(0, lda);
    TermsStay(16, 1, Up(0, lda, 1), lda, term, 0, lda, lda * lda);
  }

  lemma DmBlockAdds(lda: nat, last: bool, i: nat, j: nat, lo: nat, hi: nat, site: Site)
    requires lo <= i && i + 4 <= hi <= lda && j + 4 <= lda && DmSite(site, lda, lo, hi)
    ensures AddsBox(DmBlock(lda, site.a, site.b, last, i, j), site, Box(i, i + 4, j, j + 4, 0, lda))
  {
    hide DmTerms, Copies, Computes, Covers, TermsWork, TileProgram, AddsBox, Names;
    RegistersCover(i, j, lda, site.size);
    DmBlockComputes(lda, last, i, j, site);
    DmTermsWork(lda, site.a, site.b, last, i, j);
    AllNamed(16);
    TileAdds(DmRegisters(i, j), InTurn(16), DmTerms(lda, site.a, site.b, last, i, j), InTurn(16),
             Box(i, i + 4, j, j + 4, 0, lda), site);
  }

  lemma DmRowAdds(lda: nat, last: bool, i: nat, lo: nat, hi: nat, site: Site)
    requires lda % 4 == 0 && lo <= i && i + 4 <= hi <= lda && DmSite(site, lda, lo, hi)
    ensures AddsBox(DmRowWork(lda, site.a, site.b, last, i), site, Box(i, i + 4, 0, lda, 0, lda))
  {
    hide AddsBox, DmBlock, DmSite;
    var body := j => DmBlock(lda, site.a, site.b, last, Nat(i), Nat(j));
    var x := Box(i, i + 4, 0, lda, 0, lda);
    forall j | j in Up(0, lda / 4 * 4, 4)
      ensures ColumnAt(j, body, site, x, 4, 0)
    {
      UpMembers(0, lda, 4, lda / 4, j);
      DmBlockAdds(lda, last, i, j, lo, hi, site);
    }
    UpColumns(0, lda, 4, lda / 4, body, site, x);
  }

  lemma DmRowsAdd(lda: nat, last: bool, lo: nat, hi: nat, n: nat, site: Site)
    requires lda % 4 == 0 && lo + n * 4 == hi <= lda && DmSite(site, lda, lo, hi)
    ensures
      AddsBox(Each(Up(lo, hi, 4), i => DmRowWork(lda, site.a, site.b, last, i)), site, Box(lo, hi, 0, lda, 0, lda))
  {
    hide AddsBox, DmRowWork, DmSite;
    var body := i => DmRowWork(lda, site.a, site.b, last, i);
    var x := Box(lo, hi, 0, lda, 0, lda);
    forall i | i in Up(lo, hi, 4)
      ensures RowAt(i, body, site, x, 4, 0)
    {
      UpMembers(lo, hi, 4, n, i);
      DmRowAdds(lda, last, i, lo, hi, site);
    }
    UpRows(lo, hi, 4, n, body, site, x);
  }

  /** A number of cores for which the loops of the source leave nothing out. */
  predicate Fours(ncores: nat, lda: nat) { ncores > 0 && lda % 4 == 0 && lda / ncores % 4 == 0 }

  lemma DmWorkAdds(coreid: nat, ncores: nat, lda: nat, site: Site)
    requires coreid < ncores && Fours(ncores, lda)
    requires DmSite(site, lda, DmStart(ncores, lda, coreid), DmEnd(ncores, lda, coreid))
    ensures
      AddsBox(DmWork(coreid, ncores, lda, site.a, site.b), site,
              Box(DmStart(ncores, lda, coreid), DmEnd(ncores, lda, coreid), 0, lda, 0, lda))
  {
    DmRange(ncores, lda, coreid);
    hide AddsBox, DmStart, DmEnd, DmSite;
    var lo, hi := DmStart(ncores, lda, coreid), DmEnd(ncores, lda, coreid);
    assert hi / 4 * 4 == hi;
    DmRowsAdd(lda, coreid == ncores - 1, lo, hi, (hi - lo) / 4, site);
  }

  // ---------- all cores ----------

  function DmPrograms(ncores: nat, lda: nat, a: View, b: View): Programs
    requires ncores > 0
  {
    seq(ncores, t requires 0 <= t < ncores => DmMatmul(t, ncores, lda, a, b))
  }

  function DmFills(ncores: nat, lda: nat, b: View): Programs
    requires ncores > 0
  {
    seq(ncores, t requires 0 <= t < ncores => DmFill(lda, ncores, b, t))
  }

  function DmWorks(ncores: nat, lda: nat, a: View, b: View): Programs
    requires ncores > 0
  {
    seq(ncores, t requires 0 <= t < ncores => DmWork(t, ncores, lda, a, b))
  }

  /** What B1 holds when it is filled: B, and behind it what it held. */
  function Copy(lda: nat, b: View, before: seq<int>): seq<int> {
    seq(|before|, x requires 0 <= x < |before| => if x < lda * lda then b.At(0, x) else before[x])
  }

  /** The site of core t. */
  function SiteOf(t: nat, ncores: nat, lda: nat, a: View, b: View, shared: seq<int>, size: nat): Site
    requires t < ncores
  {
    TeamSite(DmMine(t, ncores, lda), shared, lda * lda, size, a, b, lda)
  }

  lemma SiteOk(t: nat, ncores: nat, lda: nat, a: View, b: View, shared: seq<int>, size: nat)
    requires t < ncores && Copies(lda * lda, b, shared) && lda * lda <= size && b.ld == lda
    ensures DmSite(SiteOf(t, ncores, lda, a, b, shared, size), lda, DmStart(ncores, lda, t), DmEnd(ncores, lda, t))
  {
    var lo, hi := DmStart(ncores, lda, t), DmEnd(ncores, lda, t);
    DmBounds(ncores, lda, t);
    hide DmStart, DmEnd;
    forall i, j | lo <= i < hi && 0 <= j < lda
      ensures Cell(0, lda, i, j) in CellsOf(DmMine(t, ncores, lda), lda, size)
    {
      CellInside(lda, i, j);
      Coordinates(Cell(0, lda, i, j), 0, lda, i, j);
      assert InRows(Cell(0, lda, i, j), lda, DmMine(t, ncores, lda));
    }
  }

  lemma DmWorkOk(t: nat, ncores: nat, lda: nat, a: View, b: View, shared: seq<int>, size: nat)
    requires t < ncores && Fours(ncores, lda) && lda * lda <= size && Copies(lda * lda, b, shared) && b.ld == lda
    ensures AddsInRows(DmWork(t, ncores, lda, a, b), SiteOf(t, ncores, lda, a, b, shared, size), DmMine(t, ncores, lda))
  {
    var site := SiteOf(t, ncores, lda, a, b, shared, size);
    hide DmWork, DmSite, DmStart, DmEnd, AddsBox, AddsInRows, Copies;
    SiteOk(t, ncores, lda, a, b, shared, size);
    DmWorkAdds(t, ncores, lda, site);
    BoxIsRows(DmWork(t, ncores, lda, a, b), site, DmStart(ncores, lda, t), DmEnd(ncores, lda, t));
  }

  lemma DmCoreAdds(t: nat, ncores: nat, lda: nat, a: View, b: View, shared: seq<int>, size: nat)
    requires t < ncores && Fours(ncores, lda) && lda * lda <= size && Copies(lda * lda, b, shared) && b.ld == lda
    ensures
      CoreAdds(DmMatmul(t, ncores, lda, a, b), DmFill(lda, ncores, b, t), DmWork(t, ncores, lda, a, b),
               DmMine(t, ncores, lda),
               shared, lda * lda, 1, size, a, b, lda)
  {
    hide DmFill, DmWork, AddsInRows, Fours, FillsTarget, OnlyFills, Syncs, Copies, DmMine, CellsOf;
    DmFillOk(lda, ncores, b, t, shared);
    DmWorkOk(t, ncores, lda, a, b, shared, size);
  }

  lemma DmFillsAll(ncores: nat, lda: nat, b: View)
    requires ncores > 0
    ensures forall x: nat :: x < lda * lda ==> FilledBefore(DmFills(ncores, lda, b), x, 1)
  {
    hide FilledBefore, DmFill;
    forall x: nat | x < lda * lda
      ensures FilledBefore(DmFills(ncores, lda, b), x, 1)
    {
      DmStores(lda, ncores, b, DmFills(ncores, lda, b), x);
    }
  }

  lemma DmMultiplying(ncores: nat, lda: nat, a: View, b: View, shared: seq<int>, size: nat)
    requires Fours(ncores, lda) && lda * lda <= size && Copies(lda * lda, b, shared) && b.ld == lda
    ensures
      Multiplying(DmPrograms(ncores, lda, a, b), DmFills(ncores, lda, b), DmWorks(ncores, lda, a, b),
                  DmShares(ncores, lda),
                  shared, lda * lda, 1, size, a, b, lda)
  {
    var progs, fills, works, rows :=
      DmPrograms(ncores, lda, a, b), DmFills(ncores, lda, b), DmWorks(ncores, lda, a, b), DmShares(ncores, lda);
    DmPartition(ncores, lda);
    DmFillsAll(ncores, lda, b);
    hide CoreAdds, Partition, FilledBefore, DmMatmul, DmFill, DmWork, Copies, DmMine, Fours;
    forall t | 0 <= t < ncores
      ensures CoreAdds(progs[t], fills[t], works[t], rows[t], shared, lda * lda, 1, size, a, b, lda)
    {
      DmCoreAdds(t, ncores, lda, a, b, shared, size);
    }
  }

  /** Every core is at the beginning of matmul, outside the barrier; B1, C and the registers hold anything. */
  ghost predicate Called(ncores: nat, lda: nat, a: View, b: View, s: State)
    requires ncores > 0
  {
    && Started(DmPrograms(ncores, lda, a, b), Copy(lda, b, s.shared), s)
    && lda * lda <= |s.shared| && lda * lda <= |s.c| && b.ld == lda
  }

  /** Over every interleaving of the cores: whenever a core is about to read B1, it finds the cell of B
      there, and when all cores are done, C has gained A*B and nothing else of it has changed. */
  lemma DmEveryRun(ncores: nat, lda: nat, a: View, b: View, s0: State, schedule: seq<nat>)
    requires Fours(ncores, lda) && Called(ncores, lda, a, b, s0)
    ensures
      var progs := DmPrograms(ncores, lda, a, b);
      var s := Run(progs, s0, schedule);
      && (forall t :: 0 <= t < ncores ==> ReadsRight(progs, Copy(lda, b, s0.shared), s, t))
      && (AllDone(progs, s) ==> AddsProduct(s0.c, s.c, a, b, 0, lda, lda, lda, lda))
  {
    var target := Copy(lda, b, s0.shared);
    assert Copies(lda * lda, b, target);
    DmMultiplying(ncores, lda, a, b, target, |s0.c|);
    assert |DmPrograms(ncores, lda, a, b)| == ncores;
    hide DmPrograms, Multiplying, Copy, Copies;
    TeamRun(DmPrograms(ncores, lda, a, b), DmFills(ncores, lda, b), DmWorks(ncores, lda, a, b), DmShares(ncores, lda),
            target, lda * lda, 1, a, b, lda, s0, schedule);
    TeamReads(DmPrograms(ncores, lda, a, b), DmFills(ncores, lda, b), DmWorks(ncores, lda, a, b),
              DmShares(ncores, lda), target, lda * lda, 1, a, b, lda, s0, schedule);
  }

  /** And if no core is starved, all cores come to an end, having made one barrier call each. */
  lemma DmFairRun(ncores: nat, lda: nat, a: View, b: View, s0: State, f: nat -> nat) returns (j: nat)
    requires Fours(ncores, lda) && Called(ncores, lda, a, b, s0) && Barrier.Fair(f, ncores)
    ensures
      var progs := DmPrograms(ncores, lda, a, b);
      var s := StateAt(progs, s0, f, j);
      AllDone(progs, s) && AddsProduct(s0.c, s.c, a, b, 0, lda, lda, lda, lda)
    ensures SameCalls(DmPrograms(ncores, lda, a, b), 1)
  {
    var target := Copy(lda, b, s0.shared);
    assert Copies(lda * lda, b, target);
    DmMultiplying(ncores, lda, a, b, target, |s0.c|);
    assert |DmPrograms(ncores, lda, a, b)| == ncores;
    hide DmPrograms, Multiplying, Copy, Copies, Barrier.Fair;
    TeamProper(DmPrograms(ncores, lda, a, b), DmFills(ncores, lda, b), DmWorks(ncores, lda, a, b),
               DmShares(ncores, lda), target,
               lda * lda, 1, |s0.c|, a, b, lda);
    j := TeamFairRun(DmPrograms(ncores, lda, a, b), DmFills(ncores, lda, b), DmWorks(ncores, lda, a, b),
                     DmShares(ncores, lda),
                     target, lda * lda, 1, a, b, lda, s0, f);
  }

  /** What the method leaves in C is what the statements of the core leave there. */
  lemma DmMethodIsProgram(
    t: nat, ncores: nat, lda: nat, a: View, b: View, shared: seq<int>, regs: Registers, before: seq<int>,
    after: seq<int>)
    requires t < ncores && Fours(ncores, lda) && lda * lda <= |before| && Copies(lda * lda, b, shared) && b.ld == lda
    requires AddsInto(before, after, a, b, lda, DmMine(t, ncores, lda), lda, lda)
    ensures after == Solo(DmMatmul(t, ncores, lda, a, b), shared, Core(regs, before)).c
  {
    hide DmFill, DmWork, AddsInRows, DmMine, Fours, Copies, AddsInto;
    DmFillOk(lda, ncores, b, t, shared);
    DmWorkOk(t, ncores, lda, a, b, shared, |before|);
    FillThenSolo(DmFill(lda, ncores, b, t), DmWork(t, ncores, lda, a, b), shared, Core(regs, before));
    SameEffect(DmWork(t, ncores, lda, a, b), SiteOf(t, ncores, lda, a, b, shared, |before|), DmMine(t, ncores, lda),
               Core(regs, before), after);
  }
}
