/** riscv-tests/mt/ck_matmul.c: each core takes every ncores-th block of 16 rows, and goes through
    the blocks of 16 columns starting at its own and wrapping around at lda. */
module WrapAround {
  import opened Arithmetic
  import opened Strided
  import opened Team
  import opened WrapLoop

  // ---------- the 4 x 2 tile ----------

  datatype Pair = Pair(x0: int, x1: int)

  /** The eight accumulators c1 .. c8. */
  datatype Tile = Tile(r0: Pair, r1: Pair, r2: Pair, r3: Pair)

  /** The cells (j, i) and (j, i+1) of C. */
  ghost function PairIn(s: seq<int>, lda: nat, j: nat, i: nat): Pair {
    Pair(View(s, 0, lda).At(j, i), View(s, 0, lda).At(j, i + 1))
  }

  ghost function TileIn(s: seq<int>, lda: nat, j: nat, i: nat): Tile {
    Tile(PairIn(s, lda, j, i), PairIn(s, lda, j + 1, i), PairIn(s, lda, j + 2, i), PairIn(s, lda, j + 3, i))
  }

  ghost function PairAfter(a: View, b: View, j: nat, i: nat, init: Pair, k: nat): Pair {
    Pair(init.x0 + Dot(a, b, j, i, 0, k), init.x1 + Dot(a, b, j, i + 1, 0, k))
  }

  ghost function TileAfter(a: View, b: View, j: nat, i: nat, init: Tile, k: nat): Tile {
    Tile(PairAfter(a, b, j, i, init.r0, k), PairAfter(a, b, j + 1, i, init.r1, k),
         PairAfter(a, b, j + 2, i, init.r2, k), PairAfter(a, b, j + 3, i, init.r3, k))
  }

  function PairPlus(c: Pair, x: int, b1: int, b2: int): Pair { Pair(c.x0 + x * b1, c.x1 + x * b2) }

  predicate Readable(a: View, b: View, j: nat, i: nat, k: nat) {
    && a.Has(j, k) && a.Has(j + 1, k) && a.Has(j + 2, k) && a.Has(j + 3, k)
    && b.Has(k, i) && b.Has(k, i + 1)
  }

  /** The body of the innermost loop. */
  method TileStep(a: View, b: View, j: nat, i: nat, ghost init: Tile, k: nat, t: Tile) returns (t': Tile)
    requires Readable(a, b, j, i, k) && t == TileAfter(a, b, j, i, init, k)
    ensures t' == TileAfter(a, b, j, i, init, k + 1)
  {
    var b1, b2 := b.Get(k, i), b.Get(k, i + 1);
    hide View.At;
    t' := Tile(PairPlus(t.r0, a.Get(j, k), b1, b2), PairPlus(t.r1, a.Get(j + 1, k), b1, b2),
               PairPlus(t.r2, a.Get(j + 2, k), b1, b2), PairPlus(t.r3, a.Get(j + 3, k), b1, b2));
  }

  lemma SumsStart(a: View, b: View, j: nat, i: nat, init: Tile)
    ensures init == TileAfter(a, b, j, i, init, 0)
  {
  }

  /** The loops over k and x. */
  method TileSums(lda: nat, a: View, b: View, j: nat, i: nat, init: Tile) returns (t: Tile)
    requires lda % 8 == 0 && forall k :: 0 <= k < lda ==> Readable(a, b, j, i, k)
    ensures t == TileAfter(a, b, j, i, init, lda)
  {
    hide *;
    t := init;
    var k := 0;
    SumsStart(a, b, j, i, init);
    ghost var u, g := 0, lda / 8;
    while k < lda
      invariant k <= lda && k == 8 * u && lda == 8 * g
      invariant t == TileAfter(a, b, j, i, init, k)
    {
      var x := 0;
      while x < 8
        invariant x <= 8
        invariant t == TileAfter(a, b, j, i, init, k + x)
      {
        t := TileStep(a, b, j, i, init, k + x, t);
        x := x + 1;
      }
      k := k + 8;
      u := u + 1;
    }
  }

  lemma SquareCells(lda: nat, a: View, b: View, length: nat, j: nat, i: nat)
    requires Square(lda, a, b, length) && j + 4 <= lda && i + 2 <= lda
    ensures forall k :: 0 <= k < lda ==> Readable(a, b, j, i, k)
    ensures forall r :: j <= r < j + 4 ==> PairRoom(length, lda, r, i)
  {
    forall r | j <= r < j + 4
      ensures PairRoom(length, lda, r, i)
    {
      ConformsAt(lda, lda, lda, a, b, length, 0, lda, r, i);
      ConformsAt(lda, lda, lda, a, b, length, 0, lda, r, i + 1);
    }
    forall k | 0 <= k < lda
      ensures Readable(a, b, j, i, k)
    {
      FitsAt(a, lda, lda, j, k);
      FitsAt(a, lda, lda, j + 1, k);
      FitsAt(a, lda, lda, j + 2, k);
      FitsAt(a, lda, lda, j + 3, k);
      FitsAt(b, lda, lda, k, i);
      FitsAt(b, lda, lda, k, i + 1);
    }
  }

  predicate PairRoom(length: nat, lda: nat, j: nat, i: nat) {
    i + 2 <= lda && 0 <= j * lda + i && j * lda + i + 1 < length
  }

  method LoadPair(c: array<int>, lda: nat, j: nat, i: nat) returns (v: Pair)
    requires PairRoom(c.Length, lda, j, i)
    ensures v == PairIn(c[..], lda, j, i)
  {
    v := Pair(c[i + j * lda], c[i + j * lda + 1]);
  }

  method StorePair(c: array<int>, ghost a: View, ghost b: View, lda: nat, j: nat, i: nat, v: Pair)
    requires PairRoom(c.Length, lda, j, i)
    requires v == PairAfter(a, b, j, i, PairIn(c[..], lda, j, i), lda)
    modifies c
    ensures Adds(old(c[..]), c[..], a, b, 0, lda, Box(j, j + 1, i, i + 2, 0, lda))
  {
    hide Adds, Dot;
    ghost var s0 := c[..];
    var at := i + j * lda;
    assert s0[at] == View(s0, 0, lda).At(j, i) && s0[at + 1] == View(s0, 0, lda).At(j, i + 1);
    c[at] := v.x0;
    ghost var s1 := c[..];
    AddsCell(s0, a, b, 0, lda, j, i, 0, lda, v.x0);
    c[at + 1] := v.x1;
    AddsCell(s1, a, b, 0, lda, j, i + 1, 0, lda, v.x1);
    AddsColumns(s0, s1, c[..], a, b, 0, lda, Box(j, j + 1, i, i + 2, 0, lda), i + 1);
  }

  /** The rows of the tile that are still to be stored are as they were loaded. */
  lemma PairKept(before: seq<int>, after: seq<int>, a: View, b: View, lda: nat, x: Box, j: nat, i: nat)
    requires Adds(before, after, a, b, 0, lda, x) && x.i1 <= j && PairRoom(|before|, lda, j, i)
    ensures PairIn(after, lda, j, i) == PairIn(before, lda, j, i)
  {
    AddsKeeps(before, after, a, b, 0, lda, x, j, i);
    AddsKeeps(before, after, a, b, 0, lda, x, j, i + 1);
  }

  /** One tile: load, sum over the whole inner index, store. */
  method CkTile(lda: nat, a: View, b: View, c: array<int>, j: nat, i: nat)
    requires Square(lda, a, b, c.Length) && lda % 8 == 0 && j + 4 <= lda && i + 2 <= lda
    modifies c
    ensures Adds(old(c[..]), c[..], a, b, 0, lda, Box(j, j + 4, i, i + 2, 0, lda))
  {
    SquareCells(lda, a, b, c.Length, j, i);
    hide Adds, PairRoom, PairIn, PairAfter, Readable, Square;
    ghost var s0 := c[..];
    var c1 := LoadPair(c, lda, j, i);
    var c3 := LoadPair(c, lda, j + 1, i);
    var c5 := LoadPair(c, lda, j + 2, i);
    var c7 := LoadPair(c, lda, j + 3, i);
    var t := TileSums(lda, a, b, j, i, Tile(c1, c3, c5, c7));
    StoreTile(c, a, b, lda, j, i, t);
  }

  method StoreTile(c: array<int>, ghost a: View, ghost b: View, lda: nat, j: nat, i: nat, t: Tile)
    requires forall r :: j <= r < j + 4 ==> PairRoom(c.Length, lda, r, i)
    requires t == TileAfter(a, b, j, i, TileIn(c[..], lda, j, i), lda)
    modifies c
    ensures Adds(old(c[..]), c[..], a, b, 0, lda, Box(j, j + 4, i, i + 2, 0, lda))
  {
    hide Adds, PairRoom, PairIn, PairAfter;
    ghost var s0 := c[..];
    ghost var x := Box(j, j + 4, i, i + 2, 0, lda);
    StorePair(c, a, b, lda, j, i, t.r0);
    ghost var s1 := c[..];
    PairKept(s0, s1, a, b, lda, x.(i1 := j + 1), j + 1, i);
    StorePair(c, a, b, lda, j + 1, i, t.r1);
    ghost var s2 := c[..];
    AddsRows(s0, s1, s2, a, b, 0, lda, x.(i1 := j + 2), j + 1);
    PairKept(s0, s2, a, b, lda, x.(i1 := j + 2), j + 2, i);
    StorePair(c, a, b, lda, j + 2, i, t.r2);
    ghost var s3 := c[..];
    AddsRows(s0, s2, s3, a, b, 0, lda, x.(i1 := j + 3), j + 2);
    PairKept(s0, s3, a, b, lda, x.(i1 := j + 3), j + 3, i);
    StorePair(c, a, b, lda, j + 3, i, t.r3);
    AddsRows(s0, s3, c[..], a, b, 0, lda, x, j + 3);
  }

  // ---------- the blocks ----------

  function Min(x: int, y: int): int { if x < y then x else y }

  /** The loops over j and i inside one block of rows and columns, cut off at lda. */
  method CkBlock(lda: nat, a: View, b: View, c: array<int>, jj: nat, ii: nat)
    requires Square(lda, a, b, c.Length) && lda % 8 == 0 && jj % 8 == 0 && ii % 8 == 0 && jj < lda && ii < lda
    modifies c
    ensures Adds(old(c[..]), c[..], a, b, 0, lda, Box(jj, Min(jj + BSIZE, lda), ii, Min(ii + BSIZE, lda), 0, lda))
  {
    hide Adds, Square;
    ghost var x := Box(jj, Min(jj + BSIZE, lda), ii, Min(ii + BSIZE, lda), 0, lda);
    var j := jj;
    AddsNothing(c[..], a, b, 0, lda, x.(i1 := jj));
    while j < lda && j < jj + BSIZE
      invariant jj <= j <= Min(jj + BSIZE, lda) && (j - jj) % 4 == 0
      invariant Adds(old(c[..]), c[..], a, b, 0, lda, x.(i1 := j))
    {
      ghost var rowStart := c[..];
      CkStrip(lda, a, b, c, j, ii);
      AddsRows(old(c[..]), rowStart, c[..], a, b, 0, lda, x.(i1 := j + 4), j);
      j := j + 4;
    }
  }

  /** The loop over i. */
  method CkStrip(lda: nat, a: View, b: View, c: array<int>, j: nat, ii: nat)
    requires Square(lda, a, b, c.Length) && lda % 8 == 0 && ii % 8 == 0 && j + 4 <= lda && ii < lda
    modifies c
    ensures Adds(old(c[..]), c[..], a, b, 0, lda, Box(j, j + 4, ii, Min(ii + BSIZE, lda), 0, lda))
  {
    hide Adds, Square;
    ghost var row := Box(j, j + 4, ii, Min(ii + BSIZE, lda), 0, lda);
    var i := ii;
    AddsNothing(c[..], a, b, 0, lda, row.(j1 := ii));
    while i < lda && i < ii + BSIZE
      invariant ii <= i <= Min(ii + BSIZE, lda) && (i - ii) % 2 == 0
      invariant Adds(old(c[..]), c[..], a, b, 0, lda, row.(j1 := i))
    {
      ghost var tileStart := c[..];
      CkTile(lda, a, b, c, j, i);
      AddsColumns(old(c[..]), tileStart, c[..], a, b, 0, lda, row.(j1 := i + 2), i);
      i := i + 2;
    }
  }

  // ---------- the columns, as often as they are visited ----------

  /** In these rows each column has gained its inner products as often as the blocks cover it. */
  ghost predicate AddsTimes(before: seq<int>, after: seq<int>, a: View, b: View, lda: nat, rows: set<int>,
                            visited: seq<nat>) {
    |before| == |after| && forall q :: 0 <= q < |after| ==>
        after[q] == before[q] + TimesShare(a, b, q, lda, rows, visited)
  }

  function TimesShare(a: View, b: View, q: int, lda: nat, rows: set<int>, visited: seq<nat>): int {
    if lda > 0 && RowOf(q, 0, lda) in rows then
      Times(visited, ColOf(q, 0, lda)) * Dot(a, b, RowOf(q, 0, lda), ColOf(q, 0, lda), 0, lda)
    else 0
  }

  lemma TimesNothing(s: seq<int>, a: View, b: View, lda: nat, rows: set<int>, visited: seq<nat>)
    requires rows == {} || visited == []
    ensures AddsTimes(s, s, a, b, lda, rows, visited)
  {
  }

  /** One more block. */
  lemma TimesMore(
    before: seq<int>, mid: seq<int>, after: seq<int>, a: View, b: View, lda: nat, lo: int, hi: int, visited: seq<nat>,
    ii: nat)
    requires AddsTimes(before, mid, a, b, lda, Rows(lo, hi), visited)
    requires Adds(mid, after, a, b, 0, lda, Box(lo, hi, ii, Min(ii + BSIZE, lda), 0, lda))
    ensures AddsTimes(before, after, a, b, lda, Rows(lo, hi), visited + [ii])
  {
    forall q | 0 <= q < |after|
      ensures after[q] == before[q] + TimesShare(a, b, q, lda, Rows(lo, hi), visited + [ii])
    {
      TimesMoreAt(a, b, q, lda, lo, hi, visited, ii);
    }
  }

  lemma TimesMoreAt(a: View, b: View, q: int, lda: nat, lo: int, hi: int, visited: seq<nat>, ii: nat)
    ensures TimesShare(a, b, q, lda, Rows(lo, hi), visited + [ii]) ==
            TimesShare(a, b, q, lda, Rows(lo, hi), visited)
                + Share(a, b, q, 0, lda, Box(lo, hi, ii, Min(ii + BSIZE, lda), 0, lda))
  {
    if lda > 0 {
      var c := ColOf(q, 0, lda);
      assert (visited + [ii])[..|visited|] == visited;
      var d := Dot(a, b, RowOf(q, 0, lda), c, 0, lda);
      MulDistributes(Times(visited, c), 1, d);
      hide Dot;
    }
  }

  lemma TimesBoth(
    s0: seq<int>, s1: seq<int>, s2: seq<int>, a: View, b: View, lda: nat, r1: set<int>, r2: set<int>, visited: seq<nat>)
    requires r1 !! r2 && AddsTimes(s0, s1, a, b, lda, r1, visited) && AddsTimes(s1, s2, a, b, lda, r2, visited)
    ensures AddsTimes(s0, s2, a, b, lda, r1 + r2, visited)
  {
    hide Dot, Times;
  }

  /** Once each is the product. */
  lemma TimesOnce(before: seq<int>, after: seq<int>, a: View, b: View, lda: nat, rows: set<int>, start: nat)
    requires start < lda && EachOnce(start, lda) && AddsTimes(before, after, a, b, lda, rows, Visits(start, lda))
    ensures AddsInto(before, after, a, b, lda, rows, lda, lda)
  {
    hide Dot, Times, Visits;
    forall q | 0 <= q < |after|
      ensures TimesShare(a, b, q, lda, rows, Visits(start, lda)) == ShareOfRows(a, b, q, lda, rows, lda, lda)
    {
      assert 0 <= ColOf(q, 0, lda) < lda;
    }
  }

  lemma RemainderOfEights(x: nat, m: nat, q: nat, r: nat)
    requires 8 * x == q * (8 * m) + r
    ensures r % 8 == 0
  {
    assert q * (8 * m) == 8 * (q * m);
    assert r == 8 * (x - q * m);
  }

  lemma AtEight(start: nat, lda: nat, t: nat)
    requires lda > 0 && lda % 8 == 0 && start % 8 == 0
    ensures At(start, lda, t) % 8 == 0 && At(start, lda, t) < lda
  {
    var q, r := Euclid(start + BSIZE * t, lda);
    RemainderOfEights(start / 8 + 2 * t, lda / 8, q, r);
  }

  /** One turn of the loop over ii. */
  method CkTurn(lda: nat, a: View, b: View, c: array<int>, start: nat, jj: nat, ii: nat, ghost s0: seq<int>,
                ghost visited: seq<nat>)
    returns (next: nat)
    requires Square(lda, a, b, c.Length) && lda % 8 == 0 && start % 8 == 0 && jj % 8 == 0 && jj < lda
    requires ii == At(start, lda, |visited|)
    requires AddsTimes(s0, c[..], a, b, lda, Rows(jj, Min(jj + BSIZE, lda)), visited)
    modifies c
    ensures next == At(start, lda, |visited| + 1)
    ensures AddsTimes(s0, c[..], a, b, lda, Rows(jj, Min(jj + BSIZE, lda)), visited + [ii])
  {
    hide Adds, Square, At, AddsTimes, Rows;
    ghost var before := c[..];
    AtEight(start, lda, |visited|);
    CkBlock(lda, a, b, c, jj, ii);
    TimesMore(s0, before, c[..], a, b, lda, jj, Min(jj + BSIZE, lda), visited, ii);
    AtNext(start, lda, |visited|);
    next := (BSIZE + ii) % lda;
  }

  lemma VisitsNext(start: nat, lda: nat, n: nat)
    requires start < lda && n < BackAt(start, lda, 1)
    ensures Visits(start, lda)[..n] + [At(start, lda, n)] == Visits(start, lda)[..n + 1]
  {
  }

  /** The loop over ii for one block of rows: it ends, having visited exactly the blocks of Visits. */
  method CkColumns(lda: nat, a: View, b: View, c: array<int>, start: nat, jj: nat)
    requires Square(lda, a, b, c.Length) && lda % 8 == 0 && start % 8 == 0 && start < lda && jj % 8 == 0 && jj < lda
    modifies c
    ensures AddsTimes(old(c[..]), c[..], a, b, lda, Rows(jj, Min(jj + BSIZE, lda)), Visits(start, lda))
  {
    AtEnd(start, lda);
    hide Adds, Square, At, AddsTimes, Rows;
    var first := true;
    var ii := start;
    ghost var rows, n := Rows(jj, Min(jj + BSIZE, lda)), 0;
    TimesNothing(c[..], a, b, lda, rows, Visits(start, lda)[..0]);
    while ii != start || first
      invariant (first <==> n == 0) && n <= BackAt(start, lda, 1)
      invariant ii == At(start, lda, n)
      invariant AddsTimes(old(c[..]), c[..], a, b, lda, rows, Visits(start, lda)[..n])
      decreases lda - n
    {
      first := false;
      VisitsNext(start, lda, n);
      ii := CkTurn(lda, a, b, c, start, jj, ii, old(c[..]), Visits(start, lda)[..n]);
      n := n + 1;
    }
    assert Visits(start, lda)[..n] == Visits(start, lda);
  }

  // ---------- one core and all cores ----------

  /** Row j belongs to the core: its block's number is coreid modulo ncores. */
  predicate Mine(coreid: nat, ncores: nat, j: nat)
    requires ncores > 0
  {
    j / BSIZE % ncores == coreid
  }

  /** The core's rows below hi. */
  function CkRows(coreid: nat, ncores: nat, hi: nat): set<int>
    requires ncores > 0
  {
    set j | 0 <= j < hi && Mine(coreid, ncores, j)
  }

  lemma BlockNumber(j: nat, q: nat)
    ensures BSIZE * q <= j < BSIZE * q + BSIZE <==> j / BSIZE == q
    ensures BSIZE * q <= j <==> q <= j / BSIZE
  {
  }

  lemma NextRows(coreid: nat, ncores: nat, t: nat, jj: nat, lda: nat)
    requires coreid < ncores && jj == BSIZE * (coreid + t * ncores) && jj < lda
    ensures var next, end := jj + BSIZE * ncores, Min(jj + BSIZE, lda);
            && CkRows(coreid, ncores, Min(next, lda)) == CkRows(coreid, ncores, jj) + Rows(jj, end)
            && CkRows(coreid, ncores, jj) !! Rows(jj, end)
  {
    var next, end := jj + BSIZE * ncores, Min(jj + BSIZE, lda);
    var hi := Min(next, lda);
    var q0 := coreid + t * ncores;
    assert BSIZE * (q0 + 1) == jj + BSIZE;
    assert BSIZE * (q0 + ncores) == next;
    forall j: int
      ensures j in CkRows(coreid, ncores, hi) <==> j in CkRows(coreid, ncores, jj) || Between(jj, j, end)
    {
      if jj <= j < next {
        BlockNumber(j, q0);
        BlockNumber(j, q0 + ncores);
        OwnBlock(coreid, ncores, t, j / BSIZE);
      }
    }
  }

  lemma FirstRows(coreid: nat, ncores: nat, hi: nat)
    requires coreid < ncores && hi <= BSIZE * coreid
    ensures CkRows(coreid, ncores, hi) == {}
  {
    forall j: nat | j < hi
      ensures !Mine(coreid, ncores, j)
    {
      BlockNumber(j, coreid);
      RemainderIs(j / BSIZE, ncores, 0, j / BSIZE);
    }
  }

  /** The column blocks that a core visits for each of its row blocks. */
  function CkVisits(coreid: nat, lda: nat): seq<nat> {
    if BSIZE * coreid < lda then Visits(BSIZE * coreid, lda) else []
  }

  lemma Sixteens(n: nat)
    ensures BSIZE * n % 8 == 0
  {
  }

  /** One turn of the loop over jj. */
  method CkRowBlock(coreid: nat, ncores: nat, lda: nat, a: View, b: View, c: array<int>, jj: nat, ghost t: nat,
                    ghost s0: seq<int>)
    requires coreid < ncores && lda % 8 == 0 && Square(lda, a, b, c.Length)
    requires jj == BSIZE * (coreid + t * ncores) && BSIZE * coreid <= jj < lda
    requires AddsTimes(s0, c[..], a, b, lda, CkRows(coreid, ncores, jj), Visits(BSIZE * coreid, lda))
    modifies c
    ensures AddsTimes(s0, c[..], a, b, lda, CkRows(coreid, ncores, Min(jj + BSIZE * ncores, lda)),
                      Visits(BSIZE * coreid, lda))
  {
    Sixteens(coreid + t * ncores);
    Sixteens(coreid);
    NextRows(coreid, ncores, t, jj, lda);
    ghost var next := Min(jj + BSIZE * ncores, lda);
    CkRowBlockAt(lda, a, b, c, BSIZE * coreid, jj, s0, CkRows(coreid, ncores, jj), CkRows(coreid, ncores, next));
  }

  method CkRowBlockAt(lda: nat, a: View, b: View, c: array<int>, start: nat, jj: nat, ghost s0: seq<int>,
                      ghost rows: set<int>, ghost rows': set<int>)
    requires lda % 8 == 0 && Square(lda, a, b, c.Length) && start % 8 == 0 && jj % 8 == 0 && start <= jj < lda
    requires rows !! Rows(jj, Min(jj + BSIZE, lda)) && rows' == rows + Rows(jj, Min(jj + BSIZE, lda))
    requires AddsTimes(s0, c[..], a, b, lda, rows, Visits(start, lda))
    modifies c
    ensures AddsTimes(s0, c[..], a, b, lda, rows', Visits(start, lda))
  {
    hide AddsTimes, Square, Visits, Rows, Min;
    ghost var before := c[..];
    CkColumns(lda, a, b, c, start, jj);
    TimesBoth(s0, before, c[..], a, b, lda, rows, Rows(jj, Min(jj + BSIZE, lda)), Visits(start, lda));
  }

  /** ck_matmul.c matmul, one core, for every lda divisible by 8: each column gains its product as often
      as it is visited, on the rows of that core.  For the sizes that fit that is C += A*B. */
  method CkMatmul(coreid: nat, ncores: nat, lda: nat, a: View, b: View, c: array<int>)
    requires coreid < ncores && lda % 8 == 0 && Square(lda, a, b, c.Length)
    modifies c
    ensures AddsTimes(old(c[..]), c[..], a, b, lda, CkRows(coreid, ncores, lda), CkVisits(coreid, lda))
    ensures Fits(lda) ==> AddsInto(old(c[..]), c[..], a, b, lda, CkRows(coreid, ncores, lda), lda, lda)
  {
    var jj := BSIZE * coreid;
    FirstRows(coreid, ncores, Min(jj, lda));
    TimesNothing(c[..], a, b, lda, {}, CkVisits(coreid, lda));
    hide Adds, AddsTimes, AddsInto, Square, CkRows, Visits;
    ghost var t := 0;
    while jj < lda
      invariant jj == BSIZE * (coreid + t * ncores) && BSIZE * coreid <= jj
      invariant AddsTimes(old(c[..]), c[..], a, b, lda, CkRows(coreid, ncores, Min(jj, lda)), CkVisits(coreid, lda))
    {
      CkRowBlock(coreid, ncores, lda, a, b, c, jj, t, old(c[..]));
      MulDistributes(t, 1, ncores);
      jj := jj + BSIZE * ncores;
      t := t + 1;
    }
    CkOnce(coreid, ncores, lda, a, b, old(c[..]), c[..]);
  }

  lemma CkOnce(coreid: nat, ncores: nat, lda: nat, a: View, b: View, before: seq<int>, after: seq<int>)
    requires coreid < ncores && lda % 8 == 0
    requires AddsTimes(before, after, a, b, lda, CkRows(coreid, ncores, lda), CkVisits(coreid, lda))
    ensures Fits(lda) ==> AddsInto(before, after, a, b, lda, CkRows(coreid, ncores, lda), lda, lda)
  {
    if BSIZE * coreid < lda {
      OnceIff(coreid, lda);
      if Fits(lda) {
        TimesOnce(before, after, a, b, lda, CkRows(coreid, ncores, lda), BSIZE * coreid);
      }
    } else {
      FirstRows(coreid, ncores, lda);
    }
  }

  /** For the other sizes a core that has rows gets column 8 wrong, wherever its inner product is not 0. */
  lemma CkWrong(coreid: nat, ncores: nat, lda: nat, a: View, b: View, before: seq<int>, after: seq<int>, r: nat)
    requires coreid < ncores && lda % 8 == 0 && !Fits(lda) && BSIZE * coreid < lda
    requires AddsTimes(before, after, a, b, lda, CkRows(coreid, ncores, lda), CkVisits(coreid, lda))
    requires r in CkRows(coreid, ncores, lda) && 0 <= r * lda + 8 < |after| && Dot(a, b, r, 8, 0, lda) != 0
    ensures !AddsInto(before, after, a, b, lda, CkRows(coreid, ncores, lda), lda, lda)
  {
    hide Dot, Times, Visits, CkRows;
    Column8Twice(coreid, lda);
    Coordinates(r * lda + 8, 0, lda, r, 8);
    var q, rows := r * lda + 8, CkRows(coreid, ncores, lda);
    assert after[q] == before[q] + TimesShare(a, b, q, lda, rows, CkVisits(coreid, lda));
    TwiceIsNotOnce(Times(CkVisits(coreid, lda), 8), Dot(a, b, r, 8, 0, lda));
    assert after[q] != before[q] + ShareOfRows(a, b, q, lda, rows, lda, lda);
  }

  lemma Column8Twice(coreid: nat, lda: nat)
    requires lda % 8 == 0 && !Fits(lda) && BSIZE * coreid < lda
    ensures lda > 8 && Times(CkVisits(coreid, lda), 8) >= 2
  {
    assert lda == 8 * (lda / 8);
    OddTwice(coreid, lda / 8);
  }

  lemma TwiceIsNotOnce(n: nat, d: int)
    requires n >= 2 && d != 0
    ensures n * d != d
  {
  }

  /** The rows of all the cores. */
  function CkShares(ncores: nat, lda: nat): seq<set<int>>
    requires 0 < ncores
  {
    seq(ncores, core requires 0 <= core < ncores => CkRows(core, ncores, lda))
  }

  /** Every row has exactly one owner. */
  lemma CkPartition(ncores: nat, lda: nat)
    requires 0 < ncores
    ensures Partition(CkShares(ncores, lda), lda)
  {
    var rows := CkShares(ncores, lda);
    forall r
      ensures 0 <= r < lda <==> Owned(rows, r)
    {
      if 0 <= r < lda {
        var owner := r / BSIZE % ncores;
        assert r in rows[owner];
      }
    }
  }

  /** All cores, one after the other in any order, leave C += A*B where the sizes fit. */
  method CkTeam(order: seq<nat>, ncores: nat, lda: nat, a: View, b: View, c: array<int>)
    requires 0 < ncores && OrderOf(order, ncores) && lda % 8 == 0 && Fits(lda) && Square(lda, a, b, c.Length)
    modifies c
    ensures AddsProduct(old(c[..]), c[..], a, b, 0, lda, lda, lda, lda)
  {
    hide AddsInto, Square, Fits;
    CkPartition(ncores, lda);
    ghost var rows := CkShares(ncores, lda);
    ghost var states := [c[..]];
    for k := 0 to ncores
      invariant |states| == k + 1 && states[0] == old(c[..]) && states[k] == c[..]
      invariant forall i :: 0 <= i < k ==> AddsInto(states[i], states[i + 1], a, b, lda, rows[order[i]], lda, lda)
    {
      CkMatmul(order[k], ncores, lda, a, b, c);
      states := states + [c[..]];
    }
    TeamAdds(states, order, rows, a, b, lda, lda, lda, lda);
  }
}
