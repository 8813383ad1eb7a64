/** riscv-tests/mt/ce_matmul.c and dm_matmul.c: what the cores put into the static arrays BB and B1
    before they multiply, and that programs which fill first and work afterwards are proper. */
module SharedFills {
  import opened Arithmetic
  import opened Strided
  import opened CorePrograms
  import opened Kernels
  import opened Team
  import Barrier

  // ---------- filling, then working ----------

  lemma {:induction false} SyncsOfBoth(a: seq<Action>, b: seq<Action>, n: nat)
    requires n <= |a| + |b|
    ensures Syncs(a + b, n) == if n <= |a| then Syncs(a, n) else Syncs(a, |a|) + Syncs(b, n - |a|)
  {
    if n > 0 {
      SyncsOfBoth(a, b, n - 1);
    }
  }

  lemma {:induction false} WorkDoesNotSync(prog: seq<Action>, cells: set<int>, bound: nat, n: nat)
    requires Works(prog, cells, bound) && n <= |prog|
    ensures Syncs(prog, n) == 0
  {
    if n > 0 {
      WorkDoesNotSync(prog, cells, bound, n - 1);
    }
  }

  /** Only fills and barrier calls. */
  predicate OnlyFills(prog: seq<Action>) { forall q :: 0 <= q < |prog| ==> prog[q].Fill? || prog[q].Sync? }

  lemma {:induction false} FillsDoNothing(prog: seq<Action>, shared: seq<int>, p: Core)
    requires OnlyFills(prog)
    ensures Solo(prog, shared, p) == p
  {
    if prog != [] {
      FillsDoNothing(prog[..|prog| - 1], shared, p);
    }
  }

  /** What a core does after its fill is what it would do with a filled array. */
  lemma FillThenSolo(fill: seq<Action>, work: seq<Action>, shared: seq<int>, p: Core)
    requires OnlyFills(fill)
    ensures Solo(fill + work, shared, p) == Solo(work, shared, p)
  {
    SoloBoth(fill, work, shared, p);
    FillsDoNothing(fill, shared, p);
  }

  /** A fill with a number of barrier calls, then work on the core's own cells. */
  ghost predicate FillAndWork(prog: seq<Action>, fill: seq<Action>, work: seq<Action>, target: seq<int>,
                              cells: set<int>, bound: nat, calls: nat) {
    && prog == fill + work && OnlyFills(fill) && FillsTarget(fill, target) && Syncs(fill, |fill|) == calls
    && Works(work, cells, bound)
  }

  ghost predicate AllFillAndWork(
    progs: Programs, fills: Programs, works: Programs, target: seq<int>, cells: seq<set<int>>, bound: nat, calls: nat)
  {
    && |progs| == |fills| == |works| == |cells|
    && forall t :: 0 <= t < |progs| ==> FillAndWork(progs[t], fills[t], works[t], target, cells[t], bound, calls)
  }

  /** Programs that fill with the same number of barrier calls each and then only work are proper, if
      every address of the shared array below the bound is filled by somebody before the last call. */
  lemma FillsThenWork(progs: Programs, fills: Programs, works: Programs, target: seq<int>, cells: seq<set<int>>,
                      bound: nat, calls: nat)
    requires AllFillAndWork(progs, fills, works, target, cells, bound, calls) && Disjoint(cells)
    requires forall x: nat :: x < bound ==> FilledBefore(fills, x, calls)
    ensures Proper(progs, target, cells) && SameCalls(progs, calls)
  {
    hide Syncs, FilledBefore;
    forall t | 0 <= t < |progs|
      ensures FillsTarget(progs[t], target) && StaysIn(progs[t], cells[t]) && Syncs(progs[t], |progs[t]|) == calls
    {
      assert FillAndWork(progs[t], fills[t], works[t], target, cells[t], bound, calls);
      SyncsOfBoth(fills[t], works[t], |progs[t]|);
      WorkDoesNotSync(works[t], cells[t], bound, |works[t]|);
      OneProper(fills[t], works[t], target, cells[t], bound);
    }
    forall t, p | 0 <= t < |progs| && 0 <= p < |progs[t]| && progs[t][p].SharedTerm?
      ensures FilledBefore(progs, progs[t][p].addr, Syncs(progs[t], p))
    {
      ReadIsLate(progs, fills, works, target, cells, bound, calls, t, p);
    }
  }

  lemma OneProper(fill: seq<Action>, work: seq<Action>, target: seq<int>, cells: set<int>, bound: nat)
    requires OnlyFills(fill) && FillsTarget(fill, target) && Works(work, cells, bound)
    ensures FillsTarget(fill + work, target) && StaysIn(fill + work, cells)
  {
  }

  lemma ReadIsLate(
    progs: Programs, fills: Programs, works: Programs, target: seq<int>, cells: seq<set<int>>, bound: nat, calls: nat,
    t: nat, p: nat)
    requires AllFillAndWork(progs, fills, works, target, cells, bound, calls)
    requires forall x: nat :: x < bound ==> FilledBefore(fills, x, calls)
    requires t < |progs| && p < |progs[t]| && progs[t][p].SharedTerm?
    ensures FilledBefore(progs, progs[t][p].addr, Syncs(progs[t], p))
  {
    hide Syncs;
    assert FillAndWork(progs[t], fills[t], works[t], target, cells[t], bound, calls);
    assert p >= |fills[t]| && progs[t][p] == works[t][p - |fills[t]|];
    assert WorksOn(works[t][p - |fills[t]|], cells[t], bound);
    var x := progs[t][p].addr;
    SyncsOfBoth(fills[t], works[t], p);
    SyncsOfBoth(fills[t], works[t], |fills[t]|);
    WorkDoesNotSync(works[t], cells[t], bound, p - |fills[t]|);
    assert FilledBefore(fills, x, calls);
    var u: nat, q: nat :| FilledBy(fills, x, calls, u, q);
    assert FillAndWork(progs[u], fills[u], works[u], target, cells[u], bound, calls);
    SyncsOfBoth(fills[u], works[u], q);
    assert FilledBy(progs, x, calls, u, q);
  }

  // ---------- whole teams ----------

  /** Where core t of a team works. */
  function TeamSite(rows: set<int>, target: seq<int>, bound: nat, size: nat, a: View, b: View, ld: int): Site {
    Site(target, bound, size, CellsOf(rows, ld, size), a, b, ld)
  }

  /** A core that fills what is meant, calls the barrier, and then adds the product into its rows. */
  ghost predicate CoreAdds(
    prog: seq<Action>, fill: seq<Action>, work: seq<Action>, rows: set<int>, target: seq<int>, bound: nat, calls: nat,
    size: nat, a: View, b: View, ld: int)
  {
    && prog == fill + work && OnlyFills(fill) && FillsTarget(fill, target) && Syncs(fill, |fill|) == calls
    && AddsInRows(work, TeamSite(rows, target, bound, size, a, b, ld), rows)
  }

  /** Such cores for all the rows of the product, which between them fill the shared array. */
  ghost predicate Multiplying(
    progs: Programs, fills: Programs, works: Programs, rows: seq<set<int>>, target: seq<int>, bound: nat, calls: nat,
    size: nat, a: View, b: View, ld: nat)
  {
    && |progs| == |fills| == |works| == |rows| && Partition(rows, ld)
    && (forall x: nat :: x < bound ==> FilledBefore(fills, x, calls))
    && forall t :: 0 <= t < |progs| ==> CoreAdds(progs[t], fills[t], works[t], rows[t], target, bound, calls, size, a,
                                                 b, ld)
  }

  lemma TeamProper(
    progs: Programs, fills: Programs, works: Programs, rows: seq<set<int>>, target: seq<int>, bound: nat, calls: nat,
    size: nat, a: View, b: View, ld: nat)
    requires Multiplying(progs, fills, works, rows, target, bound, calls, size, a, b, ld)
    ensures Proper(progs, target, CellsOfAll(rows, ld, size)) && SameCalls(progs, calls)
  {
    var cells := CellsOfAll(rows, ld, size);
    RowsApart(rows, ld, ld, size);
    forall t | 0 <= t < |progs|
      ensures FillAndWork(progs[t], fills[t], works[t], target, cells[t], bound, calls)
    {
      assert CoreAdds(progs[t], fills[t], works[t], rows[t], target, bound, calls, size, a, b, ld);
    }
    FillsThenWork(progs, fills, works, target, cells, bound, calls);
  }

  lemma TeamEachAdds(
    progs: Programs, fills: Programs, works: Programs, rows: seq<set<int>>, target: seq<int>, bound: nat, calls: nat,
    size: nat, a: View, b: View, ld: nat, s0: State)
    requires Multiplying(progs, fills, works, rows, target, bound, calls, size, a, b, ld)
    requires Shaped(progs, s0) && |s0.c| == size
    ensures EachAdds(progs, target, s0, rows, a, b, ld, ld)
  {
    forall t | 0 <= t < |progs|
      ensures AddsInto(s0.c, Solo(progs[t], target, Core(s0.regs[t], s0.c)).c, a, b, ld, rows[t], ld, ld)
    {
      var p := Core(s0.regs[t], s0.c);
      assert CoreAdds(progs[t], fills[t], works[t], rows[t], target, bound, calls, size, a, b, ld);
      FillThenSolo(fills[t], works[t], target, p);
      assert AddsRowsFrom(works[t], TeamSite(rows[t], target, bound, size, a, b, ld), rows[t], p);
    }
  }

  /** Such a team computes C += A*B in every interleaving: when all cores are done C has gained A*B, and
      nothing else of it has changed. */
  lemma TeamRun(
    progs: Programs, fills: Programs, works: Programs, rows: seq<set<int>>, target: seq<int>, bound: nat, calls: nat,
    a: View, b: View, ld: nat, s0: State, schedule: seq<nat>)
    requires Started(progs, target, s0)
    requires Multiplying(progs, fills, works, rows, target, bound, calls, |s0.c|, a, b, ld)
    ensures AllDone(progs, Run(progs, s0, schedule)) ==>
              AddsProduct(s0.c, Run(progs, s0, schedule).c, a, b, 0, ld, ld, ld, ld)
  {
    TeamProper(progs, fills, works, rows, target, bound, calls, |s0.c|, a, b, ld);
    TeamEachAdds(progs, fills, works, rows, target, bound, calls, |s0.c|, a, b, ld, s0);
    assert Shaped(progs, s0) && Partition(rows, ld);
    hide Multiplying, Started, Proper, EachAdds, Partition, Barrier.Fair, SameCalls;
    InterleavedProduct(progs, target, s0, schedule, rows, a, b, ld, ld, ld);
  }

  /** If core t's next statement reads the shared array, it finds there what is meant. */
  predicate ReadsRight(progs: Programs, target: seq<int>, s: State, t: nat)
    requires Shaped(progs, s) && t < |progs|
  {
    s.at[t] < |progs[t]| && progs[t][s.at[t]].SharedTerm? ==>
      var x := progs[t][s.at[t]].addr;
      x < |s.shared| == |target| && s.shared[x] == target[x]
  }

  /** In every state of every run, every read of the shared array finds what is meant. */
  lemma TeamReads(
    progs: Programs, fills: Programs, works: Programs, rows: seq<set<int>>, target: seq<int>, bound: nat, calls: nat,
    a: View, b: View, ld: nat, s0: State, schedule: seq<nat>)
    requires Started(progs, target, s0)
    requires Multiplying(progs, fills, works, rows, target, bound, calls, |s0.c|, a, b, ld)
    ensures forall t :: 0 <= t < |progs| ==> ReadsRight(progs, target, Run(progs, s0, schedule), t)
  {
    TeamProper(progs, fills, works, rows, target, bound, calls, |s0.c|, a, b, ld);
    hide Multiplying, Proper;
    forall t | 0 <= t < |progs|
      ensures ReadsRight(progs, target, Run(progs, s0, schedule), t)
    {
      EveryRead(progs, target, CellsOfAll(rows, ld, |s0.c|), s0, schedule, t);
    }
  }

  /** And if no core is starved, they do all come to an end. */
  lemma TeamFairRun(
    progs: Programs, fills: Programs, works: Programs, rows: seq<set<int>>, target: seq<int>, bound: nat, calls: nat,
    a: View, b: View, ld: nat, s0: State, f: nat -> nat) returns (j: nat)
    requires Started(progs, target, s0) && Barrier.Fair(f, |progs|)
    requires Multiplying(progs, fills, works, rows, target, bound, calls, |s0.c|, a, b, ld)
    ensures AllDone(progs, StateAt(progs, s0, f, j))
      && AddsProduct(s0.c, StateAt(progs, s0, f, j).c, a, b, 0, ld, ld, ld, ld)
  {
    TeamProper(progs, fills, works, rows, target, bound, calls, |s0.c|, a, b, ld);
    TeamEachAdds(progs, fills, works, rows, target, bound, calls, |s0.c|, a, b, ld, s0);
    assert Shaped(progs, s0) && Partition(rows, ld);
    hide Multiplying, Started, Proper, EachAdds, Partition, Barrier.Fair, SameCalls;
    j := FairProduct(progs, target, s0, f, rows, a, b, ld, ld, ld, calls);
  }

  // ---------- teams without a shared array ----------

  /** Cores that only work, each on the rows it owns. */
  ghost predicate Free(progs: Programs, rows: seq<set<int>>, size: nat, a: View, b: View, ld: nat) {
    && |progs| == |rows| && Partition(rows, ld)
    && forall t :: 0 <= t < |progs| ==> FreeCore(progs[t], rows[t], size, a, b, ld)
  }

  /** Whatever the shared array holds. */
  ghost predicate FreeCore(prog: seq<Action>, rows: set<int>, size: nat, a: View, b: View, ld: int) {
    forall shared: seq<int> :: AddsInRows(prog, TeamSite(rows, shared, 0, size, a, b, ld), rows)
  }

  lemma FreeMultiplies(progs: Programs, rows: seq<set<int>>, target: seq<int>, size: nat, a: View, b: View, ld: nat)
    requires Free(progs, rows, size, a, b, ld)
    ensures Multiplying(progs, seq(|progs|, t => []), progs, rows, target, 0, 0, size, a, b, ld)
  {
    var fills: Programs := seq(|progs|, t => []);
    forall t | 0 <= t < |progs|
      ensures CoreAdds(progs[t], fills[t], progs[t], rows[t], target, 0, 0, size, a, b, ld)
    {
      assert FreeCore(progs[t], rows[t], size, a, b, ld);
      assert [] + progs[t] == progs[t];
    }
  }

  /** Such a team computes C += A*B in every interleaving. */
  lemma FreeRun(progs: Programs, rows: seq<set<int>>, a: View, b: View, ld: nat, s0: State, schedule: seq<nat>)
    requires Started(progs, s0.shared, s0) && Free(progs, rows, |s0.c|, a, b, ld)
    ensures AllDone(progs, Run(progs, s0, schedule)) ==>
              AddsProduct(s0.c, Run(progs, s0, schedule).c, a, b, 0, ld, ld, ld, ld)
  {
    FreeMultiplies(progs, rows, s0.shared, |s0.c|, a, b, ld);
    TeamRun(progs, seq(|progs|, t => []), progs, rows, s0.shared, 0, 0, a, b, ld, s0, schedule);
  }

  /** And if no core is starved, it comes to an end. */
  lemma FreeFairRun(progs: Programs, rows: seq<set<int>>, a: View, b: View, ld: nat, s0: State, f: nat -> nat)
      returns (j: nat)
    requires Started(progs, s0.shared, s0) && Free(progs, rows, |s0.c|, a, b, ld) && Barrier.Fair(f, |progs|)
    ensures AllDone(progs, StateAt(progs, s0, f, j))
      && AddsProduct(s0.c, StateAt(progs, s0, f, j).c, a, b, 0, ld, ld, ld, ld)
  {
    FreeMultiplies(progs, rows, s0.shared, |s0.c|, a, b, ld);
    j := TeamFairRun(progs, seq(|progs|, t => []), progs, rows, s0.shared, 0, 0, a, b, ld, s0, f);
  }

  lemma CellInside(lda: nat, i: nat, k: nat)
    requires i < lda && k < lda
    ensures Cell(0, lda, i, k) == i * lda + k && 0 <= i * lda + k < lda * lda
  {
    MulMonotone(i + 1, lda, lda);
    MulDistributes(i, 1, lda);
  }

  /** A core may touch the cells of its rows. */
  lemma RowsCells(rows: set<int>, shared: seq<int>, size: nat, a: View, b: View, lda: nat, lo: nat, hi: nat)
    requires Rows(lo, hi) <= rows && hi <= lda && lda * lda <= size
    ensures BoxCells(TeamSite(rows, shared, 0, size, a, b, lda), Box(lo, hi, 0, lda, 0, lda))
  {
    forall i, j | lo <= i < hi && 0 <= j < lda
      ensures Strided.Cell(0, lda, i, j) in CellsOf(rows, lda, size)
    {
      CellInside(lda, i, j);
      Coordinates(Strided.Cell(0, lda, i, j), 0, lda, i, j);
      assert i in Rows(lo, hi);
      assert InRows(Strided.Cell(0, lda, i, j), lda, rows);
    }
  }

  /** Where a core works that does not read the shared array. */
  ghost predicate PlainSite(site: Site, lda: nat) { site.ld == lda && lda * lda <= site.size && site.bound == 0 }

  lemma SiteOfRows(rows: set<int>, shared: seq<int>, size: nat, a: View, b: View, lda: nat, lo: nat, hi: nat)
    requires Rows(lo, hi) <= rows && hi <= lda && lda * lda <= size
    ensures var site := TeamSite(rows, shared, 0, size, a, b, lda);
            && site.a == a && site.b == b && site.ld == lda && PlainSite(site, lda)
            && BoxCells(site, Box(lo, hi, 0, lda, 0, lda))
  {
    RowsCells(rows, shared, size, a, b, lda, lo, hi);
  }

  // ---------- the fills ----------

  /** The cells lo <= i < hi of column k of the transpose, then the barrier call after them. */
  function ColumnFill(lda: nat, b: View, k: nat, lo: nat, hi: nat): seq<Action>
    decreases hi - lo
  {
    if lo >= hi then [Sync] else [Fill(lo * lda + k, b.At(k, lo))] + ColumnFill(lda, b, k, lo + 1, hi)
  }

  /** ce: the loops over k, from k on, and over i. */
  function TransposeFill(lda: nat, b: View, k: nat, lo: nat, hi: nat): seq<Action>
    decreases lda - k
  {
    if k >= lda then [] else ColumnFill(lda, b, k, lo, hi) + TransposeFill(lda, b, k + 1, lo, hi)
  }

  /** dm: the copying loop. */
  function CopyFill(b: View, lo: nat, hi: nat): seq<Action>
    decreases hi - lo
  {
    if lo >= hi then [Sync] else [Fill(lo, b.At(0, lo))] + CopyFill(b, lo + 1, hi)
  }

  // ---------- ce: the transpose ----------

  predicate Transposes(lda: nat, b: View, target: seq<int>) {
    && lda * lda <= |target|
    && forall i, k :: 0 <= i < lda && 0 <= k < lda ==>
         0 <= Cell(0, lda, i, k) < |target| && target[Cell(0, lda, i, k)] == b.At(k, i)
  }

  lemma {:induction false} ColumnFillOk(lda: nat, b: View, k: nat, lo: nat, hi: nat, target: seq<int>)
    requires k < lda && hi <= lda && Transposes(lda, b, target)
    ensures FillsTarget(ColumnFill(lda, b, k, lo, hi), target) && OnlyFills(ColumnFill(lda, b, k, lo, hi))
    decreases hi - lo
  {
    if lo < hi {
      CellInside(lda, lo, k);
      ColumnFillOk(lda, b, k, lo + 1, hi, target);
    }
  }

  /** Column k is one barrier call long; cell i is stored before the call. */
  lemma {:induction false} ColumnFillCalls(lda: nat, b: View, k: nat, lo: nat, hi: nat, i: nat)
    ensures var f := ColumnFill(lda, b, k, lo, hi);
            && Syncs(f, |f|) == 1
            && (lo <= i < hi ==> i - lo < |f| && f[i - lo] == Fill(i * lda + k, b.At(k, i)) && Syncs(f, i - lo) == 0)
    decreases hi - lo
  {
    var f := ColumnFill(lda, b, k, lo, hi);
    if lo < hi {
      var head := [Fill(lo * lda + k, b.At(k, lo))];
      var rest := ColumnFill(lda, b, k, lo + 1, hi);
      ColumnFillCalls(lda, b, k, lo + 1, hi, i);
      SyncsOfBoth(head, rest, |f|);
      assert Syncs(head, 1) == 0;
      if lo <= i < hi {
        SyncsOfBoth(head, rest, i - lo);
      }
    } else {
      assert Syncs(f, 1) == Syncs(f, 0) + 1;
    }
  }

  lemma {:induction false} TransposeFillOk(lda: nat, b: View, k: nat, lo: nat, hi: nat, target: seq<int>)
    requires hi <= lda && Transposes(lda, b, target)
    ensures FillsTarget(TransposeFill(lda, b, k, lo, hi), target) && OnlyFills(TransposeFill(lda, b, k, lo, hi))
    decreases lda - k
  {
    if k < lda {
      ColumnFillOk(lda, b, k, lo, hi, target);
      TransposeFillOk(lda, b, k + 1, lo, hi, target);
    }
  }

  /** Filling from column k on makes lda - k barrier calls. */
  lemma {:induction false} TransposeFillCalls(lda: nat, b: View, k: nat, lo: nat, hi: nat)
    requires k <= lda
    ensures Syncs(TransposeFill(lda, b, k, lo, hi), |TransposeFill(lda, b, k, lo, hi)|) == lda - k
    decreases lda - k
  {
    if k < lda {
      var head, rest := ColumnFill(lda, b, k, lo, hi), TransposeFill(lda, b, k + 1, lo, hi);
      TransposeFillCalls(lda, b, k + 1, lo, hi);
      ColumnFillCalls(lda, b, k, lo, hi, lo);
      SyncsOfBoth(head, rest, |head| + |rest|);
      SyncsOfBoth(head, rest, |head|);
      hide Syncs, ColumnFill;
      NoSyncsYet(rest);
    }
  }

  /** Cell (i, c) is filled before the barrier call that follows its column. */
  lemma {:induction false} TransposeFillHas(lda: nat, b: View, k: nat, lo: nat, hi: nat, i: nat, c: nat)
      returns (q: nat)
    requires lo <= i < hi && k <= c < lda
    ensures q < |TransposeFill(lda, b, k, lo, hi)| && FillsCell(TransposeFill(lda, b, k, lo, hi), q, i * lda + c, c - k)
    decreases lda - k
  {
    hide *;
    var head, rest := ColumnFill(lda, b, k, lo, hi), TransposeFill(lda, b, k + 1, lo, hi);
    FirstColumn(lda, b, k, lo, hi, i);
    if c == k {
      q := i - lo;
      FillsInFirst(head, rest, q, i * lda + c);
    } else {
      q := TransposeFillHas(lda, b, k + 1, lo, hi, i, c);
      FillsInSecond(head, rest, q, i * lda + c, c - k - 1);
      q := |head| + q;
    }
  }

  lemma FirstColumn(lda: nat, b: View, k: nat, lo: nat, hi: nat, i: nat)
    requires lo <= i < hi && k < lda
    ensures var head := ColumnFill(lda, b, k, lo, hi);
            && TransposeFill(lda, b, k, lo, hi) == head + TransposeFill(lda, b, k + 1, lo, hi)
            && i - lo < |head| && FillsCell(head, i - lo, i * lda + k, 0) && Syncs(head, |head|) == 1
  {
    ColumnFillCalls(lda, b, k, lo, hi, i);
    hide ColumnFill, Syncs;
  }

  /** Statement q fills this address after n barrier calls. */
  predicate FillsCell(f: seq<Action>, q: nat, addr: nat, n: nat)
    requires q < |f|
  {
    f[q].Fill? && f[q].addr == addr && Syncs(f, q) == n
  }

  lemma FillsInFirst(f: seq<Action>, g: seq<Action>, q: nat, addr: nat)
    requires q < |f| && FillsCell(f, q, addr, 0)
    ensures FillsCell(f + g, q, addr, 0)
  {
    SyncsOfBoth(f, g, q);
  }

  lemma FillsInSecond(f: seq<Action>, g: seq<Action>, q: nat, addr: nat, n: nat)
    requires q < |g| && FillsCell(g, q, addr, n) && Syncs(f, |f|) == 1
    ensures FillsCell(f + g, |f| + q, addr, n + 1)
  {
    SyncsOfBoth(f, g, |f| + q);
    NoSyncsYet(g);
  }

  lemma NoSyncsYet(f: seq<Action>)
    ensures Syncs(f, 0) == 0
  {
  }

  function Width(lda: nat, ncores: nat): nat { if ncores == 0 then 0 else lda / ncores }

  function CeFill(lda: nat, ncores: nat, b: View, t: nat): seq<Action> {
    TransposeFill(lda, b, 0, t * Width(lda, ncores), (t + 1) * Width(lda, ncores))
  }

  lemma Shares(lda: nat, ncores: nat, t: nat)
    requires t < ncores
    ensures (t + 1) * Width(lda, ncores) <= lda
  {
    var w := Width(lda, ncores);
    assert lda == ncores * w + lda % ncores;
    MulMonotone(t + 1, ncores, w);
  }

  lemma CoreOfRow(lda: nat, ncores: nat, i: nat) returns (t: nat)
    requires ncores > 0 && lda % ncores == 0 && i < lda
    ensures t < ncores && t * Width(lda, ncores) <= i < (t + 1) * Width(lda, ncores)
  {
    var w := Width(lda, ncores);
    assert lda == ncores * w;
    t := i / w;
    assert i == t * w + i % w;
    if ncores <= t {
      MulMonotone(ncores, t, w);
    }
    MulDistributes(t, 1, w);
  }

  lemma CellOfAddress(lda: nat, x: nat) returns (i: nat, k: nat)
    requires x < lda * lda
    ensures i < lda && k < lda && x == i * lda + k
  {
    i, k := x / lda, x % lda;
    if i >= lda {
      MulMonotone(lda, i, lda);
    }
  }

  lemma CeStores(lda: nat, ncores: nat, b: View, fills: Programs, x: nat)
    requires ncores > 0 && lda % ncores == 0 && x < lda * lda
    requires |fills| == ncores && forall t :: 0 <= t < ncores ==> fills[t] == CeFill(lda, ncores, b, t)
    ensures FilledBefore(fills, x, lda)
  {
    hide Syncs, TransposeFill;
    var i, k := CellOfAddress(lda, x);
    var t := CoreOfRow(lda, ncores, i);
    var q := TransposeFillHas(lda, b, 0, t * Width(lda, ncores), (t + 1) * Width(lda, ncores), i, k);
    assert FilledBy(fills, x, lda, t, q);
  }

  // ---------- dm: a copy of B ----------

  /** The target holds the first `size` cells of B, as they lie in memory. */
  predicate Copies(size: nat, b: View, target: seq<int>) {
    size <= |target| && forall x :: 0 <= x < size ==> target[x] == b.At(0, x)
  }

  lemma {:induction false} CopyFillOk(b: View, lo: nat, hi: nat, size: nat, target: seq<int>)
    requires hi <= size && Copies(size, b, target)
    ensures FillsTarget(CopyFill(b, lo, hi), target) && OnlyFills(CopyFill(b, lo, hi))
    decreases hi - lo
  {
    if lo < hi {
      CopyFillOk(b, lo + 1, hi, size, target);
    }
  }

  lemma {:induction false} CopyFillCalls(b: View, lo: nat, hi: nat, x: nat)
    ensures var f := CopyFill(b, lo, hi);
            && Syncs(f, |f|) == 1
            && (lo <= x < hi ==> x - lo < |f| && f[x - lo] == Fill(x, b.At(0, x)) && Syncs(f, x - lo) == 0)
    decreases hi - lo
  {
    var f := CopyFill(b, lo, hi);
    if lo < hi {
      var head := [Fill(lo, b.At(0, lo))];
      var rest := CopyFill(b, lo + 1, hi);
      CopyFillCalls(b, lo + 1, hi, x);
      SyncsOfBoth(head, rest, |f|);
      assert Syncs(head, 1) == 0;
      if lo <= x < hi {
        SyncsOfBoth(head, rest, x - lo);
      }
    } else {
      assert Syncs(f, 1) == Syncs(f, 0) + 1;
    }
  }

  /** The last core copies the first part of B, every other core all the rest. */
  function DmFill(lda: nat, ncores: nat, b: View, t: nat): seq<Action>
    requires ncores > 0
  {
    if t == ncores - 1 then CopyFill(b, 0, lda * lda / ncores) else CopyFill(b, lda * lda / ncores, lda * lda)
  }

  lemma Part(size: nat, ncores: nat)
    requires ncores > 0
    ensures size / ncores <= size && (ncores == 1 ==> size / ncores == size)
  {
    var q := size / ncores;
    assert size == ncores * q + size % ncores;
    MulMonotone(1, ncores, q);
  }

  lemma DmStores(lda: nat, ncores: nat, b: View, fills: Programs, x: nat)
    requires ncores > 0 && x < lda * lda
    requires |fills| == ncores && forall t :: 0 <= t < ncores ==> fills[t] == DmFill(lda, ncores, b, t)
    ensures FilledBefore(fills, x, 1)
  {
    hide Syncs, CopyFill;
    var part := lda * lda / ncores;
    Part(lda * lda, ncores);
    if x < part {
      CopyFillCalls(b, 0, part, x);
      assert FilledBy(fills, x, 1, ncores - 1, x);
    } else {
      CopyFillCalls(b, part, lda * lda, x);
      assert FilledBy(fills, x, 1, 0, x - part);
    }
  }

  lemma DmFillOk(lda: nat, ncores: nat, b: View, u: nat, target: seq<int>)
    requires u < ncores && Copies(lda * lda, b, target)
    ensures var f := DmFill(lda, ncores, b, u); FillsTarget(f, target) && OnlyFills(f) && Syncs(f, |f|) == 1
  {
    hide Syncs, CopyFill, Copies;
    var size := lda * lda;
    Part(size, ncores);
    var lo, hi := if u == ncores - 1 then 0 else size / ncores, if u == ncores - 1 then size / ncores else size;
    CopyFillOk(b, lo, hi, size, target);
    CopyFillCalls(b, lo, hi, 0);
  }
}
