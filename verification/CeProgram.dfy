/** riscv-tests/mt/ce_matmul.c, all of it, run by ncores cores whose statements interleave: the
    transposition of B into the shared BB with its barrier calls, and the product computed from it. */
module CeProgram {
  import opened Strided
  import opened Team
  import opened CorePrograms
  import opened Kernels
  import opened SharedFills
  import opened ChunkedMatmul
  import Barrier

  // ---------- the statements ----------

  /** c1 .. c8: eight cells of row j from column i on. */
  function CeRegisters(j: nat, i: nat): Tile { Tile(seq(8, n => j), seq(8, n => i + n)) }

  /** c_n += a * b_n[k] */
  function CeTerm(a: View, j: nat, i: nat): (nat, int) -> Action {
    (n: nat, k: int) => SharedTerm(n, a.At(j, k), if k < 0 then 0 else (i + n) * LDA + k)
  }

  /** The body of the loop over j: eight inner indices at a time for each register in turn. */
  function CeBlock(a: View, j: nat, i: nat): seq<Action> {
    FreshProgram(CeRegisters(j, i), LDA, Terms(8, 8, Up(0, LDA, 1), CeTerm(a, j, i)))
  }

  function CeColumns(a: View, lo: nat, hi: nat, i: int): seq<Action> {
    Each(Up(lo, hi, 1), j => CeBlock(a, Nat(j), Nat(i)))
  }

  /** The loop over i of one chunk. */
  function CeChunkWork(a: View, lo: nat, hi: nat, start: int, end: int): seq<Action> {
    Each(Up(start, end, 8), i => CeColumns(a, lo, hi, i))
  }

  /** The multiplication: chunk after chunk, each of 32/ncores columns. */
  function CeWork(coreid: nat, ncores: nat, a: View): seq<Action>
    requires Chunks(ncores)
  {
    var lo, hi := ChunkStart(ncores, coreid), ChunkStart(ncores, coreid + 1);
    Each(Up(0, LDA, LDA / ncores), start => CeChunkWork(a, lo, hi, start, start + LDA / ncores))
  }

  /** The whole of matmul for one core. */
  function CeMatmul(coreid: nat, ncores: nat, a: View, b: View): seq<Action>
    requires Chunks(ncores)
  {
    CeFill(LDA, ncores, b, coreid) + CeWork(coreid, ncores, a)
  }

  // ---------- what one core adds ----------

  lemma RegistersCover(j: nat, i: nat, size: nat)
    requires j < LDA && i + 8 <= LDA && LDA * LDA <= size
    ensures Covers(CeRegisters(j, i), Box(j, j + 1, i, i + 8, 0, LDA), LDA, size)
  {
    var t, x := CeRegisters(j, i), Box(j, j + 1, i, i + 8, 0, LDA);
    forall r, c | x.i0 <= r < x.i1 && x.j0 <= c < x.j1
      ensures HasCell(t, r, c)
    {
      assert At(t, c - i, r, c);
    }
  }

  lemma CeComputes(j: nat, i: nat, site: Site, n: nat)
    requires j < LDA && i + 8 <= LDA && site.ld == LDA && Transposes(LDA, site.b, site.shared) && n < 8
    ensures var terms := Terms(8, 8, Up(0, LDA, 1), CeTerm(site.a, j, i));
            OnlyTerms(terms) && SumOf(terms, site.shared, n) == Dot(site.a, site.b, j, i + n, 0, LDA)
  {
    var term := CeTerm(site.a, j, i);
    assert TermOf(term) by {
      forall m: nat, k: int
        ensures TermAt(term, m, k)
      {
      }
    }
    UpLength(0, LDA);
    forall k | 0 <= k < LDA
      ensures Product(term(n, k), site.shared) == site.a.At(j, k) * site.b.At(k, i + n)
    {
      assert site.shared[Cell(0, LDA, i + n, k)] == site.b.At(k, i + n);
    }
    SumUp(0, LDA, term, site.shared, n, site.a, site.b, j, i + n);
    TermsSum(8, 8, Up(0, LDA, 1), 4, term, site.shared, n);
  }

  lemma CeTermsWork(a: View, j: nat, i: nat)
    requires i + 8 <= LDA
    ensures TermsWork(Terms(8, 8, Up(0, LDA, 1), CeTerm(a, j, i)), LDA * LDA)
  {
    var term := CeTerm(a, j, i);
    forall m: nat, k: int
      ensures TermAt(term, m, k)
    {
    }
    forall n: nat, k: int | n < 8 && 0 <= k < LDA
      ensures TermBounded(term, n, k, LDA * LDA)
    {
    }
    UpLength(0, LDA);
    TermsStay(8, 8, Up(0, LDA, 1), 4, term, 0, LDA, LDA * LDA);
  }

  /** The site of a core of ce that owns the rows from lo to hi: the shared array holds the transpose. */
  ghost predicate CeSite(site: Site, lo: int, hi: int) {
    && site.ld == LDA && LDA * LDA <= site.size && site.bound == LDA * LDA && Transposes(LDA, site.b, site.shared)
    && BoxCells(site, Box(lo, hi, 0, LDA, 0, LDA))
  }

  lemma CeBlockComputes(j: nat, i: nat, site: Site)
    requires j < LDA && i + 8 <= LDA && site.ld == LDA && Transposes(LDA, site.b, site.shared)
    ensures
      Computes(Terms(8, 8, Up(0, LDA, 1), CeTerm(site.a, j, i)), CeRegisters(j, i), Box(j, j + 1, i, i + 8, 0, LDA),
               site)
  {
    var t, x := CeRegisters(j, i), Box(j, j + 1, i, i + 8, 0, LDA);
    var terms := Terms(8, 8, Up(0, LDA, 1), CeTerm(site.a, j, i));
    hide Terms, Transposes, SumOf, Dot, Up, OnlyTerms;
    forall n: nat | n < |t.rows|
      ensures SumsTo(terms, t, x, site, n)
    {
      CeComputes(j, i, site, n);
    }
    CeComputes(j, i, site, 0);
  }

  lemma CeBlockAdds(j: nat, i: nat, lo: nat, hi: nat, site: Site)
    requires lo <= j < hi <= LDA && i + 8 <= LDA && CeSite(site, lo, hi)
    ensures AddsBox(CeBlock(site.a, j, i), site, Box(j, j + 1, i, i + 8, 0, LDA))
  {
    hide Terms, Transposes, Computes, Covers, TermsWork, FreshProgram, AddsBox, Up;
    RegistersCover(j, i, site.size);
    CeBlockComputes(j, i, site);
    CeTermsWork(site.a, j, i);
    FreshAdds(CeRegisters(j, i), Terms(8, 8, Up(0, LDA, 1), CeTerm(site.a, j, i)), Box(j, j + 1, i, i + 8, 0, LDA),
              site);
  }

  lemma CeColumnsAdd(lo: nat, hi: nat, i: nat, site: Site)
    requires lo <= hi <= LDA && i + 8 <= LDA && CeSite(site, lo, hi)
    ensures AddsBox(CeColumns(site.a, lo, hi, i), site, Box(lo, hi, i, i + 8, 0, LDA))
  {
    hide AddsBox, CeBlock, CeSite;
    var body := j => CeBlock(site.a, Nat(j), Nat(i));
    var x := Box(lo, hi, i, i + 8, 0, LDA);
    forall j | j in Up(lo, hi, 1)
      ensures RowAt(j, body, site, x, 1, 0)
    {
      UpMembers(lo, hi, 1, hi - lo, j);
      CeBlockAdds(j, i, lo, hi, site);
    }
    UpRows(lo, hi, 1, hi - lo, body, site, x);
  }

  lemma CeChunkAdds(lo: nat, hi: nat, start: nat, end: nat, n: nat, site: Site)
    requires lo <= hi <= LDA && start + n * 8 == end <= LDA && CeSite(site, lo, hi)
    ensures AddsBox(CeChunkWork(site.a, lo, hi, start, end), site, Box(lo, hi, start, end, 0, LDA))
  {
    hide AddsBox, CeColumns, CeSite;
    var body := i => CeColumns(site.a, lo, hi, i);
    var x := Box(lo, hi, start, end, 0, LDA);
    forall i | i in Up(start, end, 8)
      ensures ColumnAt(i, body, site, x, 8, 0)
    {
      UpMembers(start, end, 8, n, i);
      CeColumnsAdd(lo, hi, i, site);
    }
    UpColumns(start, end, 8, n, body, site, x);
  }

  lemma CeChunksAdd(lo: nat, hi: nat, w: nat, g: nat, ncores: nat, site: Site)
    requires lo <= hi <= LDA && w == g * 8 && w > 0 && LDA == ncores * w && CeSite(site, lo, hi)
    ensures
      AddsBox(Each(Up(0, LDA, w), start => CeChunkWork(site.a, lo, hi, start, start + w)), site,
              Box(lo, hi, 0, LDA, 0, LDA))
  {
    hide AddsBox, CeChunkWork, CeSite;
    var body := start => CeChunkWork(site.a, lo, hi, start, start + w);
    var x := Box(lo, hi, 0, LDA, 0, LDA);
    forall start | start in Up(0, LDA, w)
      ensures ColumnAt(start, body, site, x, w, 0)
    {
      UpMembers(0, LDA, w, ncores, start);
      CeChunkAdds(lo, hi, start, start + w, g, site);
    }
    UpColumns(0, LDA, w, ncores, body, site, x);
  }

  lemma CeWorkAdds(coreid: nat, ncores: nat, site: Site)
    requires coreid < ncores && Chunks(ncores)
    requires CeSite(site, ChunkStart(ncores, coreid), ChunkStart(ncores, coreid + 1))
    ensures
      AddsBox(CeWork(coreid, ncores, site.a), site,
              Box(ChunkStart(ncores, coreid), ChunkStart(ncores, coreid + 1), 0, LDA, 0, LDA))
  {
    ChunkSizes(ncores);
    ChunkStarts(ncores, coreid);
    hide AddsBox, ChunkStart, CeSite;
    CeChunksAdd(ChunkStart(ncores, coreid), ChunkStart(ncores, coreid + 1), LDA / ncores, LDA / ncores / 8, ncores,
                site);
  }

  // ---------- all cores ----------

  function CePrograms(ncores: nat, a: View, b: View): Programs
    requires Chunks(ncores)
  {
    seq(ncores, t requires 0 <= t < ncores => CeMatmul(t, ncores, a, b))
  }

  function CeFills(ncores: nat, b: View): Programs {
    seq(ncores, t requires 0 <= t < ncores => CeFill(LDA, ncores, b, t))
  }

  function CeWorks(ncores: nat, a: View): Programs
    requires Chunks(ncores)
  {
    seq(ncores, t requires 0 <= t < ncores => CeWork(t, ncores, a))
  }

  /** What BB holds when it is filled: the transpose of B, and behind it what it held. */
  function Transposed(b: View, before: seq<int>): seq<int> {
    seq(|before|, x requires 0 <= x < |before| => if x < LDA * LDA then b.At(x % LDA, x / LDA) else before[x])
  }

  lemma TransposedOk(b: View, before: seq<int>)
    requires LDA * LDA <= |before|
    ensures Transposes(LDA, b, Transposed(b, before))
  {
    forall i, k | 0 <= i < LDA && 0 <= k < LDA
      ensures 0 <= Cell(0, LDA, i, k) < |before| && Transposed(b, before)[Cell(0, LDA, i, k)] == b.At(k, i)
    {
      Coordinates(Cell(0, LDA, i, k), 0, LDA, i, k);
    }
  }

  /** The site of core t. */
  function SiteOf(t: nat, ncores: nat, a: View, b: View, shared: seq<int>, size: nat): Site
    requires t < ncores
  {
    Site(shared, LDA * LDA, size, CellsOf(CeMine(t, ncores), LDA, size), a, b, LDA)
  }

  lemma SiteOk(t: nat, ncores: nat, a: View, b: View, shared: seq<int>, size: nat)
    requires t < ncores && Chunks(ncores) && Transposes(LDA, b, shared) && LDA * LDA <= size
    ensures CeSite(SiteOf(t, ncores, a, b, shared, size), ChunkStart(ncores, t), ChunkStart(ncores, t + 1))
  {
    var lo, hi := ChunkStart(ncores, t), ChunkStart(ncores, t + 1);
    ChunkStarts(ncores, t);
    hide ChunkStart;
    forall i, j | lo <= i < hi && 0 <= j < LDA
      ensures Cell(0, LDA, i, j) in CellsOf(CeMine(t, ncores), LDA, size)
    {
      Coordinates(Cell(0, LDA, i, j), 0, LDA, i, j);
      assert InRows(Cell(0, LDA, i, j), LDA, CeMine(t, ncores));
    }
  }

  lemma CeFillOk(t: nat, ncores: nat, b: View, shared: seq<int>)
    requires t < ncores && Transposes(LDA, b, shared)
    ensures var fill := CeFill(LDA, ncores, b, t);
            OnlyFills(fill) && FillsTarget(fill, shared) && Syncs(fill, |fill|) == LDA
  {
    var lo, hi := t * Width(LDA, ncores), (t + 1) * Width(LDA, ncores);
    Shares(LDA, ncores, t);
    hide TransposeFill, Transposes, FillsTarget, OnlyFills, Syncs, Width;
    TransposeFillOk(LDA, b, 0, lo, hi, shared);
    TransposeFillCalls(LDA, b, 0, lo, hi);
  }

  lemma CeWorkOk(t: nat, ncores: nat, a: View, b: View, shared: seq<int>, size: nat)
    requires t < ncores && Chunks(ncores) && LDA * LDA <= size && Transposes(LDA, b, shared)
    ensures AddsInRows(CeWork(t, ncores, a), SiteOf(t, ncores, a, b, shared, size), CeMine(t, ncores))
  {
    var site := SiteOf(t, ncores, a, b, shared, size);
    SiteOk(t, ncores, a, b, shared, size);
    hide CeWork, CeSite, ChunkStart, AddsBox, AddsInRows;
    CeWorkAdds(t, ncores, site);
    BoxIsRows(CeWork(t, ncores, a), site, ChunkStart(ncores, t), ChunkStart(ncores, t + 1));
  }

  lemma CeCoreAdds(t: nat, ncores: nat, a: View, b: View, shared: seq<int>, size: nat)
    requires t < ncores && Chunks(ncores) && LDA * LDA <= size && Transposes(LDA, b, shared)
    ensures
      CoreAdds(CeMatmul(t, ncores, a, b), CeFill(LDA, ncores, b, t), CeWork(t, ncores, a), CeMine(t, ncores),
               shared, LDA * LDA, LDA, size, a, b, LDA)
  {
    hide CeFill, CeWork, AddsInRows, Chunks, FillsTarget, OnlyFills, Syncs, Transposes, CeMine, CellsOf;
    CeFillOk(t, ncores, b, shared);
    CeWorkOk(t, ncores, a, b, shared, size);
  }

  lemma CeMultiplying(ncores: nat, a: View, b: View, shared: seq<int>, size: nat)
    requires Chunks(ncores) && LDA * LDA <= size && Transposes(LDA, b, shared)
    ensures
      Multiplying(CePrograms(ncores, a, b), CeFills(ncores, b), CeWorks(ncores, a), CeShares(ncores), shared,
                  LDA * LDA, LDA, size, a, b, LDA)
  {
    var progs, fills, works, rows := CePrograms(ncores, a, b), CeFills(ncores, b), CeWorks(ncores, a), CeShares(ncores);
    hide CoreAdds, Partition, FilledBefore, CeMatmul, CeFill, CeWork, Transposes, CeMine, Chunks;
    CePartition(ncores);
    forall t | 0 <= t < ncores
      ensures CoreAdds(progs[t], fills[t], works[t], rows[t], shared, LDA * LDA, LDA, size, a, b, LDA)
    {
      CeCoreAdds(t, ncores, a, b, shared, size);
    }
    CeFillsAll(ncores, b);
  }

  lemma CeFillsAll(ncores: nat, b: View)
    requires Chunks(ncores)
    ensures forall x: nat :: x < LDA * LDA ==> FilledBefore(CeFills(ncores, b), x, LDA)
  {
    ChunkSizes(ncores);
    hide FilledBefore, CeFill;
    forall x: nat | x < LDA * LDA
      ensures FilledBefore(CeFills(ncores, b), x, LDA)
    {
      CeStores(LDA, ncores, b, CeFills(ncores, b), x);
    }
  }

  /** Every core is at the beginning of matmul, outside the barrier; BB, C and the registers hold anything. */
  ghost predicate Called(ncores: nat, a: View, b: View, s: State)
    requires Chunks(ncores)
  {
    && Started(CePrograms(ncores, a, b), Transposed(b, s.shared), s)
    && LDA * LDA <= |s.shared| && LDA * LDA <= |s.c|
  }

  /** Over every interleaving of the cores: whenever a core is about to read BB, it finds the transpose
      of B there, and when all cores are done, C has gained A*B and nothing else of it has changed. */
  lemma CeEveryRun(ncores: nat, a: View, b: View, s0: State, schedule: seq<nat>)
    requires Chunks(ncores) && Called(ncores, a, b, s0)
    ensures
      var progs := CePrograms(ncores, a, b);
      var s := Run(progs, s0, schedule);
      && (forall t :: 0 <= t < ncores ==> ReadsRight(progs, Transposed(b, s0.shared), s, t))
      && (AllDone(progs, s) ==> AddsProduct(s0.c, s.c, a, b, 0, LDA, LDA, LDA, LDA))
  {
    var target := Transposed(b, s0.shared);
    TransposedOk(b, s0.shared);
    CeMultiplying(ncores, a, b, target, |s0.c|);
    hide CePrograms, Multiplying, Transposed;
    TeamRun(CePrograms(ncores, a, b), CeFills(ncores, b), CeWorks(ncores, a), CeShares(ncores), target,
            LDA * LDA, LDA, a, b, LDA, s0, schedule);
    TeamReads(CePrograms(ncores, a, b), CeFills(ncores, b), CeWorks(ncores, a), CeShares(ncores), target,
              LDA * LDA, LDA, a, b, LDA, s0, schedule);
  }

  /** And if no core is starved, all cores come to an end, having made 32 barrier calls each. */
  lemma CeFairRun(ncores: nat, a: View, b: View, s0: State, f: nat -> nat) returns (j: nat)
    requires Chunks(ncores) && Called(ncores, a, b, s0) && Barrier.Fair(f, ncores)
    ensures
      var progs := CePrograms(ncores, a, b);
      var s := StateAt(progs, s0, f, j);
      AllDone(progs, s) && AddsProduct(s0.c, s.c, a, b, 0, LDA, LDA, LDA, LDA)
    ensures SameCalls(CePrograms(ncores, a, b), LDA)
  {
    var target := Transposed(b, s0.shared);
    TransposedOk(b, s0.shared);
    CeMultiplying(ncores, a, b, target, |s0.c|);
    assert |CePrograms(ncores, a, b)| == ncores;
    hide CePrograms, Multiplying, Transposed, Barrier.Fair;
    TeamProper(CePrograms(ncores, a, b), CeFills(ncores, b), CeWorks(ncores, a), CeShares(ncores), target,
               LDA * LDA, LDA, |s0.c|, a, b, LDA);
    j := TeamFairRun(CePrograms(ncores, a, b), CeFills(ncores, b), CeWorks(ncores, a), CeShares(ncores), target,
                     LDA * LDA, LDA, a, b, LDA, s0, f);
  }

  /** What the method leaves in C is what the statements of the core leave there. */
  lemma CeMethodIsProgram(t: nat, ncores: nat, a: View, b: View, shared: seq<int>, regs: Registers, before: seq<int>,
                          after: seq<int>)
    requires t < ncores && Chunks(ncores) && LDA * LDA <= |before| && Transposes(LDA, b, shared)
    requires AddsInto(before, after, a, b, LDA, CeMine(t, ncores), LDA, LDA)
    ensures after == Solo(CeMatmul(t, ncores, a, b), shared, Core(regs, before)).c
  {
    CeCoreAdds(t, ncores, a, b, shared, |before|);
    hide CeFill, CeWork, AddsInRows, CeMine;
    FillThenSolo(CeFill(LDA, ncores, b, t), CeWork(t, ncores, a), shared, Core(regs, before));
    SameEffect(CeWork(t, ncores, a), SiteOf(t, ncores, a, b, shared, |before|), CeMine(t, ncores), Core(regs, before),
               after);
  }
}
