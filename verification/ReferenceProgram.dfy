/** riscv-tests/benchmarks/mt-matmul/matmul.c, run by ncores cores whose statements interleave. */
module ReferenceProgram {
  import opened Arithmetic
  import opened Strided
  import opened Team
  import opened CorePrograms
  import opened Kernels
  import opened SharedFills
  import opened CellPrograms
  import opened ReferenceMatmul
  import Barrier

  // ---------- one cell ----------

  function CellTerms(lda: nat, a: View, b: View, r: int, c: int): seq<Action> {
    Terms(1, 1, Up(0, lda, 1), (n: nat, k: int) => Term(n, a.At(r, k), b.At(k, c)))
  }

  /** sum = 0, the loop over k, and C[i + j*lda] = sum, for the cell at address q. */
  function SetBlock(lda: nat, a: View, b: View): int -> seq<Action> {
    (q: int) => if lda > 0 then Clears(1) + CellTerms(lda, a, b, RowOf(q, 0, lda), ColOf(q, 0, lda)) + [Save(q, 0)]
        else []
  }

  function Product(lda: nat, a: View, b: View): Update { (q: int, v: int) => CellProduct(a, b, lda, q) }

  lemma CellTermsSum(lda: nat, a: View, b: View, r: int, c: int, shared: seq<int>)
    ensures OnlyTerms(CellTerms(lda, a, b, r, c)) && TermsWork(CellTerms(lda, a, b, r, c), 0)
    ensures SumOf(CellTerms(lda, a, b, r, c), shared, 0) == Dot(a, b, r, c, 0, lda)
  {
    var term := (n: nat, k: int) => Term(n, a.At(r, k), b.At(k, c));
    var ks := Up(0, lda, 1);
    UpLength(0, lda);
    forall m: nat, k: int
      ensures TermAt(term, m, k) && TermBounded(term, m, k, 0)
    {
    }
    assert Multiplies(term, shared, 0, a, b, r, c, 0, lda);
    hide Terms, Dot, SumOf, SumOver, TermOf, Up, Multiplies, View.At;
    assert TermOf(term) by { TermOfAll(term); }
    TermsSum(1, 1, ks, lda, term, shared, 0);
    TermsStay(1, 1, ks, lda, term, 0, lda, 0);
    SumUp(0, lda, term, shared, 0, a, b, r, c);
  }

  lemma TermOfAll(term: (nat, int) -> Action)
    requires forall m: nat, k: int :: TermAt(term, m, k)
    ensures TermOf(term)
  {
  }

  lemma SetWritesFrom(lda: nat, a: View, b: View, q: int, shared: seq<int>, p: Core)
    requires lda > 0 && 0 <= q < |p.c|
    ensures WritesFrom(SetBlock(lda, a, b), q, Product(lda, a, b), shared, p)
  {
    var r, c := RowOf(q, 0, lda), ColOf(q, 0, lda);
    var terms := CellTerms(lda, a, b, r, c);
    CellTermsSum(lda, a, b, r, c, shared);
    hide CellTerms, Dot, SumOf, RowOf, ColOf;
    FreshSums(1, terms, shared, p);
    SoloBoth(Clears(1) + terms, [Save(q, 0)], shared, p);
    var p2 := Solo(Clears(1) + terms, shared, p);
    assert [Save(q, 0)][..0] == [];
    assert Solo([Save(q, 0)], shared, p2) == Do(Save(q, 0), shared, p2);
  }

  lemma SetWrites(lda: nat, a: View, b: View, q: int, size: nat)
    requires lda > 0 && 0 <= q < size
    ensures Writes(SetBlock(lda, a, b), q, Product(lda, a, b), size)
  {
    var terms := CellTerms(lda, a, b, RowOf(q, 0, lda), ColOf(q, 0, lda));
    CellTermsSum(lda, a, b, RowOf(q, 0, lda), ColOf(q, 0, lda), []);
    hide CellTerms, RowOf, ColOf, Dot;
    assert Works(SetBlock(lda, a, b)(q), {q}, 0);
    hide Works, Solo, SetBlock, Product;
    forall shared: seq<int>, p: Core | |p.c| == size
      ensures WritesFrom(SetBlock(lda, a, b), q, Product(lda, a, b), shared, p)
    {
      SetWritesFrom(lda, a, b, q, shared, p);
    }
  }

  // ---------- the cells of a core ----------

  /** The loop over j. */
  function ColumnCells(lo: nat, hi: nat, lda: nat, i: nat): seq<int>
    decreases hi - lo
  {
    if lo >= hi then [] else [i + lo * lda] + ColumnCells(lo + 1, hi, lda, i)
  }

  /** The loop over i, from i on. */
  function CoreCells(lo: nat, hi: nat, lda: nat, i: nat): seq<int>
    decreases lda - i
  {
    if i >= lda then [] else ColumnCells(lo, hi, lda, i) + CoreCells(lo, hi, lda, i + 1)
  }

  lemma {:induction false} InColumn(lo: nat, hi: nat, lda: nat, i: nat, q: int)
    requires i < lda
    ensures q in ColumnCells(lo, hi, lda, i) <==> lo <= RowOf(q, 0, lda) < hi && ColOf(q, 0, lda) == i
    decreases hi - lo
  {
    if lo < hi {
      InColumn(lo + 1, hi, lda, i, q);
      CellOf(q, 0, lda);
      Coordinates(i + lo * lda, 0, lda, lo, i);
    }
  }

  lemma {:induction false} InCells(lo: nat, hi: nat, lda: nat, i: nat, q: int)
    requires lda > 0
    ensures q in CoreCells(lo, hi, lda, i) <==> lo <= RowOf(q, 0, lda) < hi && i <= ColOf(q, 0, lda)
    decreases lda - i
  {
    CellOf(q, 0, lda);
    if i < lda {
      InCells(lo, hi, lda, i + 1, q);
      InColumn(lo, hi, lda, i, q);
      hide RowOf, ColOf, ColumnCells;
    }
  }

  function MyCells(coreid: nat, ncores: nat, lda: nat): seq<int>
    requires ncores > 0
  {
    var block := lda / ncores;
    MulMonotone(0, coreid, block);
    CoreCells(block * coreid, block * coreid + block, lda, 0)
  }

  lemma InMyCells(coreid: nat, ncores: nat, lda: nat, q: int)
    requires ncores > 0
    ensures q in MyCells(coreid, ncores, lda) <==> InBox(q, lda, CoreShare(coreid, ncores, lda))
  {
    if lda > 0 {
      MulMonotone(0, coreid, lda / ncores);
      InCells(lda / ncores * coreid, lda / ncores * coreid + lda / ncores, lda, 0, q);
      CellOf(q, 0, lda);
    }
  }

  function AllCells(ncores: nat, lda: nat): seq<seq<int>>
    requires ncores > 0
  {
    seq(ncores, t requires 0 <= t < ncores => MyCells(t, ncores, lda))
  }

  function ReferencePrograms(ncores: nat, lda: nat, a: View, b: View): Programs
    requires ncores > 0
  {
    seq(ncores, t requires 0 <= t < ncores => Each(MyCells(t, ncores, lda), SetBlock(lda, a, b)))
  }

  lemma CellsInside(coreid: nat, ncores: nat, lda: nat, q: int)
    requires coreid < ncores && InBox(q, lda, CoreShare(coreid, ncores, lda))
    ensures lda > 0 && 0 <= q < lda * lda
  {
    SliceFits(coreid, ncores, lda);
    MulMonotone(0, coreid, lda / ncores);
    CellOf(q, 0, lda);
    CellInside(lda, RowOf(q, 0, lda), ColOf(q, 0, lda));
  }

  lemma CoresApart(ncores: nat, lda: nat, t: nat, u: nat, q: int)
    requires t < u < ncores && InBox(q, lda, CoreShare(t, ncores, lda))
    ensures !InBox(q, lda, CoreShare(u, ncores, lda))
  {
    MulMonotone(t + 1, u, lda / ncores);
    MulDistributes(t, 1, lda / ncores);
    hide RowOf, ColOf;
  }

  lemma CoreWrites(coreid: nat, ncores: nat, lda: nat, a: View, b: View, size: nat)
    requires coreid < ncores && lda * lda <= size
    ensures AllWrite(SetBlock(lda, a, b), MyCells(coreid, ncores, lda), Product(lda, a, b), size)
    ensures Once(MyCells(coreid, ncores, lda), Product(lda, a, b))
  {
    assert forall q, v :: Settled(Product(lda, a, b), q, v);
    hide MyCells, SetBlock, Product, Writes, InBox, CoreShare;
    forall q | q in MyCells(coreid, ncores, lda)
      ensures Writes(SetBlock(lda, a, b), q, Product(lda, a, b), size)
    {
      InMyCells(coreid, ncores, lda, q);
      CellsInside(coreid, ncores, lda, q);
      SetWrites(lda, a, b, q, size);
    }
  }

  lemma ReferenceTeam(ncores: nat, lda: nat, a: View, b: View, size: nat)
    requires ncores > 0 && lda * lda <= size
    ensures CellTeam(ReferencePrograms(ncores, lda, a, b), AllCells(ncores, lda), SetBlock(lda, a, b),
                     Product(lda, a, b), size)
  {
    hide MyCells, SetBlock, Product, AllWrite, Once, InBox, CoreShare, Each;
    var cells := AllElements(AllCells(ncores, lda));
    forall t, u | 0 <= t < u < ncores
      ensures cells[t] !! cells[u]
    {
      forall q | q in cells[t]
        ensures q !in cells[u]
      {
        InMyCells(t, ncores, lda, q);
        InMyCells(u, ncores, lda, q);
        CoresApart(ncores, lda, t, u, q);
      }
    }
    forall t: nat | t < ncores
      ensures CellCore(ReferencePrograms(ncores, lda, a, b)[t], AllCells(ncores, lda)[t], SetBlock(lda, a, b),
                       Product(lda, a, b), size)
    {
      CoreWrites(t, ncores, lda, a, b, size);
    }
  }

  // ---------- all cores ----------

  lemma NumberOrder(ncores: nat)
    ensures OrderOf(Kernels.InTurn(ncores), ncores)
  {
    var order := Kernels.InTurn(ncores);
    forall core | 0 <= core < ncores
      ensures core in order
    {
      assert order[core] == core;
    }
  }

  lemma SomeCell(ncores: nat, lda: nat, q: nat)
    requires ncores > 0
    ensures InSome(AllCells(ncores, lda), q) <==> InBox(q, lda, Box(0, lda / ncores * ncores, 0, lda, 0, lda))
  {
    var order := Kernels.InTurn(ncores);
    hide MyCells, InBox, CoreShare;
    NumberOrder(ncores);
    SharesCover(order, ncores, lda, q);
    if InSome(AllCells(ncores, lda), q) {
      var t: nat :| t < ncores && q in AllCells(ncores, lda)[t];
      InMyCells(t, ncores, lda, q);
      assert InBox(q, lda, CoreShare(order[t], ncores, lda));
    }
    if SetBySome(order, ncores, lda, q, ncores) {
      var t: nat :| t < ncores && InBox(q, lda, CoreShare(order[t], ncores, lda));
      InMyCells(t, ncores, lda, q);
      assert q in AllCells(ncores, lda)[t];
    }
  }

  lemma AllUpdatedIsSet(ncores: nat, lda: nat, a: View, b: View, before: seq<int>, after: seq<int>)
    requires ncores > 0 && AllUpdated(before, after, AllCells(ncores, lda), Product(lda, a, b))
    ensures Sets(before, after, a, b, lda, Box(0, lda / ncores * ncores, 0, lda, 0, lda))
  {
    hide InSome, AllCells, Dot;
    forall q: nat | q < |after|
      ensures InSome(AllCells(ncores, lda), q) <==> InBox(q, lda, Box(0, lda / ncores * ncores, 0, lda, 0, lda))
    {
      SomeCell(ncores, lda, q);
    }
  }

  /** In every interleaving, when all cores are done exactly the rows below ncores*(lda/ncores) are set to
      the product. */
  lemma ReferenceEveryRun(ncores: nat, lda: nat, a: View, b: View, s0: State, schedule: seq<nat>)
    requires ncores > 0 && lda * lda <= |s0.c| && Started(ReferencePrograms(ncores, lda, a, b), s0.shared, s0)
    ensures
      var s := Run(ReferencePrograms(ncores, lda, a, b), s0, schedule);
      AllDone(ReferencePrograms(ncores, lda, a, b), s) ==>
        Sets(s0.c, s.c, a, b, lda, Box(0, lda / ncores * ncores, 0, lda, 0, lda))
  {
    hide ReferencePrograms, CellTeam, AllUpdated, Sets;
    ReferenceTeam(ncores, lda, a, b, |s0.c|);
    CellsRun(ReferencePrograms(ncores, lda, a, b), AllCells(ncores, lda), SetBlock(lda, a, b), Product(lda, a, b), s0,
             schedule);
    var s := Run(ReferencePrograms(ncores, lda, a, b), s0, schedule);
    if AllDone(ReferencePrograms(ncores, lda, a, b), s) {
      AllUpdatedIsSet(ncores, lda, a, b, s0.c, s.c);
    }
  }

  /** And if no core is starved, all cores come to an end. */
  lemma ReferenceFairRun(ncores: nat, lda: nat, a: View, b: View, s0: State, f: nat -> nat) returns (j: nat)
    requires ncores > 0 && lda * lda <= |s0.c| && Started(ReferencePrograms(ncores, lda, a, b), s0.shared, s0)
    requires Barrier.Fair(f, ncores)
    ensures
      var s := StateAt(ReferencePrograms(ncores, lda, a, b), s0, f, j);
      AllDone(ReferencePrograms(ncores, lda, a, b), s)
      && Sets(s0.c, s.c, a, b, lda, Box(0, lda / ncores * ncores, 0, lda, 0, lda))
  {
    assert |ReferencePrograms(ncores, lda, a, b)| == ncores;
    hide ReferencePrograms, CellTeam, AllUpdated, Sets, Started, Barrier.Fair;
    ReferenceTeam(ncores, lda, a, b, |s0.c|);
    j := CellsFairRun(ReferencePrograms(ncores, lda, a, b), AllCells(ncores, lda), SetBlock(lda, a, b),
                      Product(lda, a, b), s0, f);
    AllUpdatedIsSet(ncores, lda, a, b, s0.c, StateAt(ReferencePrograms(ncores, lda, a, b), s0, f, j).c);
  }

  /** What the method leaves in C is what the statements of the core leave there. */
  lemma ReferenceMethodIsProgram(
    t: nat, ncores: nat, lda: nat, a: View, b: View, shared: seq<int>, regs: CorePrograms.Registers, before: seq<int>,
    after: seq<int>)
    requires t < ncores && lda * lda <= |before| && Sets(before, after, a, b, lda, CoreShare(t, ncores, lda))
    ensures after == Solo(Each(MyCells(t, ncores, lda), SetBlock(lda, a, b)), shared, Core(regs, before)).c
  {
    hide MyCells, SetBlock, AllWrite, Once, InBox, CoreShare, Each, Solo, Dot;
    CoreWrites(t, ncores, lda, a, b, |before|);
    EachWrites(MyCells(t, ncores, lda), SetBlock(lda, a, b), Product(lda, a, b), shared, Core(regs, before));
    forall q: nat | q < |before|
      ensures q in MyCells(t, ncores, lda) <==> InBox(q, lda, CoreShare(t, ncores, lda))
    {
      InMyCells(t, ncores, lda, q);
    }
    BoxNeedsColumns(lda, CoreShare(t, ncores, lda));
    ShareIsWhole(t, ncores, lda);
  }

  lemma ShareIsWhole(t: nat, ncores: nat, lda: nat)
    requires t < ncores
    ensures CoreShare(t, ncores, lda).k0 == 0 && CoreShare(t, ncores, lda).k1 == lda
  {
  }
}
