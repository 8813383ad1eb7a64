/** riscv-tests/mt/dm_matmul.c after its barrier: 4 x 4 register blocks; the last core reads the copy
    B1 of B and takes all the rows that are left, the others read B itself. */
module CopiedMatmul {
  import opened Arithmetic
  import opened Strided
  import opened Team

  // ---------- the 4 x 4 tile ----------

  /** The accumulators of one column: temp, temp1, temp2, temp3. */
  datatype Quad = Quad(x0: int, x1: int, x2: int, x3: int)

  /** The four columns of a tile. */
  datatype Tile = Tile(c0: Quad, c1: Quad, c2: Quad, c3: Quad)

  /** The cells (i, j) to (i+3, j) of C. */
  ghost function ColumnIn(s: seq<int>, lda: nat, i: nat, j: nat): Quad {
    var v := View(s, 0, lda);
    Quad(v.At(i, j), v.At(i + 1, j), v.At(i + 2, j), v.At(i + 3, j))
  }

  ghost function TileIn(s: seq<int>, lda: nat, i: nat, j: nat): Tile {
    Tile(ColumnIn(s, lda, i, j), ColumnIn(s, lda, i, j + 1), ColumnIn(s, lda, i, j + 2), ColumnIn(s, lda, i, j + 3))
  }

  ghost function ColumnAfter(a: View, b: View, i: nat, j: nat, init: Quad, k: nat): Quad {
    Quad(init.x0 + Dot(a, b, i, j, 0, k), init.x1 + Dot(a, b, i + 1, j, 0, k),
         init.x2 + Dot(a, b, i + 2, j, 0, k), init.x3 + Dot(a, b, i + 3, j, 0, k))
  }

  ghost function TileAfter(a: View, b: View, i: nat, j: nat, init: Tile, k: nat): Tile {
    Tile(ColumnAfter(a, b, i, j, init.c0, k), ColumnAfter(a, b, i, j + 1, init.c1, k),
         ColumnAfter(a, b, i, j + 2, init.c2, k), ColumnAfter(a, b, i, j + 3, init.c3, k))
  }

  function ColumnPlus(c: Quad, a0: int, a1: int, a2: int, a3: int, b: int): Quad {
    Quad(c.x0 + a0 * b, c.x1 + a1 * b, c.x2 + a2 * b, c.x3 + a3 * b)
  }

  predicate Readable(a: View, b: View, i: nat, j: nat, k: nat) {
    && a.Has(i, k) && a.Has(i + 1, k) && a.Has(i + 2, k) && a.Has(i + 3, k)
    && b.Has(k, j) && b.Has(k, j + 1) && b.Has(k, j + 2) && b.Has(k, j + 3)
  }

  /** The body of the innermost loop. */
  method TileStep(a: View, b: View, i: nat, j: nat, ghost init: Tile, k: nat, t: Tile) returns (t': Tile)
    requires Readable(a, b, i, j, k) && t == TileAfter(a, b, i, j, init, k)
    ensures t' == TileAfter(a, b, i, j, init, k + 1)
  {
    var a0, a1, a2, a3 := a.Get(i, k), a.Get(i + 1, k), a.Get(i + 2, k), a.Get(i + 3, k);
    var b0, b1, b2, b3 := b.Get(k, j), b.Get(k, j + 1), b.Get(k, j + 2), b.Get(k, j + 3);
    hide View.At;
    t' := Tile(ColumnPlus(t.c0, a0, a1, a2, a3, b0), ColumnPlus(t.c1, a0, a1, a2, a3, b1),
               ColumnPlus(t.c2, a0, a1, a2, a3, b2), ColumnPlus(t.c3, a0, a1, a2, a3, b3));
  }

  lemma SumsStart(a: View, b: View, i: nat, j: nat, init: Tile)
    ensures init == TileAfter(a, b, i, j, init, 0)
  {
  }

  /** The loop over k. */
  method TileSums(lda: nat, a: View, b: View, i: nat, j: nat, init: Tile) returns (t: Tile)
    requires forall k :: 0 <= k < lda ==> Readable(a, b, i, j, k)
    ensures t == TileAfter(a, b, i, j, init, lda)
  {
    hide *;
    t := init;
    var k := 0;
    SumsStart(a, b, i, j, init);
    while k < lda
      invariant 0 <= k <= lda
      invariant t == TileAfter(a, b, i, j, init, k)
    {
      t := TileStep(a, b, i, j, init, k, t);
      k := k + 1;
    }
  }

  predicate CellRoom(length: nat, lda: nat, i: nat, j: nat) { j < lda && 0 <= i * lda + j < length }

  /** All sixteen cells of the tile are inside C. */
  predicate TileRoom(length: nat, lda: nat, i: nat, j: nat) {
    forall r, c :: i <= r < i + 4 && j <= c < j + 4 ==> CellRoom(length, lda, r, c)
  }

  lemma TileFits(lda: nat, a: View, b: View, length: nat, i: nat, j: nat)
    requires Square(lda, a, b, length) && i + 4 <= lda && j + 4 <= lda
    ensures TileRoom(length, lda, i, j) && forall k :: 0 <= k < lda ==> Readable(a, b, i, j, k)
  {
    forall r, c | i <= r < i + 4 && j <= c < j + 4
      ensures CellRoom(length, lda, r, c)
    {
      ConformsAt(lda, lda, lda, a, b, length, 0, lda, r, c);
    }
    forall k | 0 <= k < lda
      ensures Readable(a, b, i, j, k)
    {
      FitsAt(a, lda, lda, i, k);
      FitsAt(a, lda, lda, i + 1, k);
      FitsAt(a, lda, lda, i + 2, k);
      FitsAt(a, lda, lda, i + 3, k);
      FitsAt(b, lda, lda, k, j);
      FitsAt(b, lda, lda, k, j + 1);
      FitsAt(b, lda, lda, k, j + 2);
      FitsAt(b, lda, lda, k, j + 3);
    }
  }

  method LoadColumn(c: array<int>, lda: nat, i: nat, j: nat) returns (v: Quad)
    requires CellRoom(c.Length, lda, i, j) && CellRoom(c.Length, lda, i + 1, j)
    requires CellRoom(c.Length, lda, i + 2, j) && CellRoom(c.Length, lda, i + 3, j)
    ensures v == ColumnIn(c[..], lda, i, j)
  {
    v := Quad(c[j + i * lda], c[j + (i + 1) * lda], c[j + (i + 2) * lda], c[j + (i + 3) * lda]);
  }

  /** One store of the tile, the m rows above it in its column having been stored since s1. */
  method StoreCell(c: array<int>, ghost s1: seq<int>, ghost a: View, ghost b: View, lda: nat, i: nat, j: nat, m: nat,
                   v: int)
    requires CellRoom(c.Length, lda, i + m, j) && |s1| == c.Length
    requires Adds(s1, c[..], a, b, 0, lda, Box(i, i + m, j, j + 1, 0, lda))
    requires v == View(s1, 0, lda).At(i + m, j) + Dot(a, b, i + m, j, 0, lda)
    modifies c
    ensures Adds(s1, c[..], a, b, 0, lda, Box(i, i + m + 1, j, j + 1, 0, lda))
  {
    hide Adds, Dot;
    ghost var s2 := c[..];
    AddsKeeps(s1, s2, a, b, 0, lda, Box(i, i + m, j, j + 1, 0, lda), i + m, j);
    AddsCell(s2, a, b, 0, lda, i + m, j, 0, lda, v);
    c[j + (i + m) * lda] := v;
    AddsRows(s1, s2, c[..], a, b, 0, lda, Box(i, i + m + 1, j, j + 1, 0, lda), i + m);
  }

  method StoreColumn(c: array<int>, ghost a: View, ghost b: View, lda: nat, i: nat, j: nat, v: Quad)
    requires CellRoom(c.Length, lda, i, j) && CellRoom(c.Length, lda, i + 1, j)
    requires CellRoom(c.Length, lda, i + 2, j) && CellRoom(c.Length, lda, i + 3, j)
    requires v == ColumnAfter(a, b, i, j, ColumnIn(c[..], lda, i, j), lda)
    modifies c
    ensures Adds(old(c[..]), c[..], a, b, 0, lda, Box(i, i + 4, j, j + 1, 0, lda))
  {
    hide Adds, Dot, View.At, CellRoom;
    ghost var s1 := c[..];
    AddsNothing(s1, a, b, 0, lda, Box(i, i, j, j + 1, 0, lda));
    StoreCell(c, s1, a, b, lda, i, j, 0, v.x0);
    StoreCell(c, s1, a, b, lda, i, j, 1, v.x1);
    StoreCell(c, s1, a, b, lda, i, j, 2, v.x2);
    StoreCell(c, s1, a, b, lda, i, j, 3, v.x3);
  }

  /** The columns of the tile still to be stored are as they were loaded. */
  lemma ColumnKept(before: seq<int>, after: seq<int>, a: View, b: View, lda: nat, x: Box, i: nat, j: nat)
    requires Adds(before, after, a, b, 0, lda, x) && x.j1 <= j
    requires forall m :: i <= m < i + 4 ==> CellRoom(|before|, lda, m, j)
    ensures ColumnIn(after, lda, i, j) == ColumnIn(before, lda, i, j)
  {
    forall m | i <= m < i + 4
      ensures View(after, 0, lda).At(m, j) == View(before, 0, lda).At(m, j)
    {
      assert CellRoom(|before|, lda, m, j);
      AddsKeeps(before, after, a, b, 0, lda, x, m, j);
    }
  }

  method StoreTile(c: array<int>, ghost a: View, ghost b: View, lda: nat, i: nat, j: nat, t: Tile)
    requires TileRoom(c.Length, lda, i, j)
    requires t == TileAfter(a, b, i, j, TileIn(c[..], lda, i, j), lda)
    modifies c
    ensures Adds(old(c[..]), c[..], a, b, 0, lda, Box(i, i + 4, j, j + 4, 0, lda))
  {
    hide Adds, ColumnIn, ColumnAfter, CellRoom;
    ghost var s0 := c[..];
    ghost var x := Box(i, i + 4, j, j + 4, 0, lda);
    StoreColumn(c, a, b, lda, i, j, t.c0);
    ghost var s1 := c[..];
    ColumnKept(s0, s1, a, b, lda, x.(j1 := j + 1), i, j + 1);
    StoreColumn(c, a, b, lda, i, j + 1, t.c1);
    ghost var s2 := c[..];
    AddsColumns(s0, s1, s2, a, b, 0, lda, x.(j1 := j + 2), j + 1);
    ColumnKept(s0, s2, a, b, lda, x.(j1 := j + 2), i, j + 2);
    StoreColumn(c, a, b, lda, i, j + 2, t.c2);
    ghost var s3 := c[..];
    AddsColumns(s0, s2, s3, a, b, 0, lda, x.(j1 := j + 3), j + 2);
    ColumnKept(s0, s3, a, b, lda, x.(j1 := j + 3), i, j + 3);
    StoreColumn(c, a, b, lda, i, j + 3, t.c3);
    AddsColumns(s0, s3, c[..], a, b, 0, lda, x, j + 3);
  }

  /** The body of the loop over j. */
  method DmTile(lda: nat, a: View, b: View, c: array<int>, i: nat, j: nat)
    requires Square(lda, a, b, c.Length) && i + 4 <= lda && j + 4 <= lda
    modifies c
    ensures Adds(old(c[..]), c[..], a, b, 0, lda, Box(i, i + 4, j, j + 4, 0, lda))
  {
    TileFits(lda, a, b, c.Length, i, j);
    hide Adds, CellRoom, ColumnIn, ColumnAfter, Readable, Square;
    var c0 := LoadColumn(c, lda, i, j);
    var c1 := LoadColumn(c, lda, i, j + 1);
    var c2 := LoadColumn(c, lda, i, j + 2);
    var c3 := LoadColumn(c, lda, i, j + 3);
    var t := TileSums(lda, a, b, i, j, Tile(c0, c1, c2, c3));
    StoreTile(c, a, b, lda, i, j, t);
  }

  // ---------- the loops ----------

  /** The loops over i and j, for the rows from start to end. */
  method DmRows(lda: nat, a: View, b: View, c: array<int>, start: nat, end: nat)
    requires Square(lda, a, b, c.Length) && lda % 4 == 0 && start <= end <= lda && start % 4 == 0 && end % 4 == 0
    modifies c
    ensures Adds(old(c[..]), c[..], a, b, 0, lda, Box(start, end, 0, lda, 0, lda))
  {
    hide Adds, Square;
    ghost var x := Box(start, end, 0, lda, 0, lda);
    AddsNothing(c[..], a, b, 0, lda, x.(i1 := start));
    var i := start;
    while i < end / 4 * 4
      invariant start <= i <= end && i % 4 == 0
      invariant Adds(old(c[..]), c[..], a, b, 0, lda, x.(i1 := i))
    {
      ghost var before := c[..];
      DmRow(lda, a, b, c, i);
      AddsRows(old(c[..]), before, c[..], a, b, 0, lda, x.(i1 := i + 4), i);
      i := i + 4;
    }
  }

  method DmRow(lda: nat, a: View, b: View, c: array<int>, i: nat)
    requires Square(lda, a, b, c.Length) && lda % 4 == 0 && i + 4 <= lda
    modifies c
    ensures Adds(old(c[..]), c[..], a, b, 0, lda, Box(i, i + 4, 0, lda, 0, lda))
  {
    hide Adds, Square;
    ghost var x := Box(i, i + 4, 0, lda, 0, lda);
    AddsNothing(c[..], a, b, 0, lda, x.(j1 := 0));
    var j := 0;
    while j < lda / 4 * 4
      invariant 0 <= j <= lda && j % 4 == 0
      invariant Adds(old(c[..]), c[..], a, b, 0, lda, x.(j1 := j))
    {
      ghost var before := c[..];
      DmTile(lda, a, b, c, i, j);
      AddsColumns(old(c[..]), before, c[..], a, b, 0, lda, x.(j1 := j + 4), j);
      j := j + 4;
    }
  }

  /** space*coreid */
  function DmStart(ncores: nat, lda: nat, coreid: nat): nat
    requires ncores > 0
  {
    lda / ncores * coreid
  }

  /** Up to the next core's rows; for the last core to the end. */
  function DmEnd(ncores: nat, lda: nat, coreid: nat): nat
    requires ncores > 0
  {
    if coreid == ncores - 1 then lda else lda / ncores * coreid + lda / ncores
  }

  lemma DmRange(ncores: nat, lda: nat, coreid: nat)
    requires coreid < ncores && lda % 4 == 0 && lda / ncores % 4 == 0
    ensures DmStart(ncores, lda, coreid) <= DmEnd(ncores, lda, coreid) <= lda
    ensures DmStart(ncores, lda, coreid) % 4 == 0 && DmEnd(ncores, lda, coreid) % 4 == 0
    ensures coreid < ncores - 1 ==> DmEnd(ncores, lda, coreid) == DmStart(ncores, lda, coreid + 1)
    ensures DmStart(ncores, lda, 0) == 0
  {
    MultipleOfFour(lda / ncores, coreid);
    DmBounds(ncores, lda, coreid);
  }

  lemma MultipleOfFour(w: nat, n: nat)
    requires w % 4 == 0
    ensures w * n % 4 == 0 && (w * n + w) % 4 == 0
  {
    var u := w / 4;
    assert w * n == 4 * (u * n);
  }

  lemma DmBounds(ncores: nat, lda: nat, coreid: nat)
    requires coreid < ncores
    ensures DmStart(ncores, lda, coreid) <= DmEnd(ncores, lda, coreid) <= lda
    ensures coreid < ncores - 1 ==> DmEnd(ncores, lda, coreid) == DmStart(ncores, lda, coreid + 1)
  {
    var w := lda / ncores;
    assert lda == ncores * w + lda % ncores;
    MulMonotone(coreid + 1, ncores, w);
    MulDistributes(coreid, 1, w);
  }

  /** B1 holds what B holds. */
  ghost predicate SameCells(lda: nat, b: View, b1: View) {
    forall k, j :: 0 <= k < lda && 0 <= j < lda ==> b1.At(k, j) == b.At(k, j)
  }

  lemma SameProduct(before: seq<int>, after: seq<int>, a: View, b: View, b1: View, lda: nat, lo: int, hi: int)
    requires SameCells(lda, b, b1) && Adds(before, after, a, b1, 0, lda, Box(lo, hi, 0, lda, 0, lda))
    ensures Adds(before, after, a, b, 0, lda, Box(lo, hi, 0, lda, 0, lda))
  {
    var x := Box(lo, hi, 0, lda, 0, lda);
    forall q | 0 <= q < |after|
      ensures Share(a, b1, q, 0, lda, x) == Share(a, b, q, 0, lda, x)
    {
      if lda > 0 && ColOf(q, 0, lda) < lda {
        DotCongruent(a, b1, RowOf(q, 0, lda), ColOf(q, 0, lda), 0, a, b, RowOf(q, 0, lda), ColOf(q, 0, lda), 0, lda);
      }
    }
  }

  function DmMine(coreid: nat, ncores: nat, lda: nat): set<int>
    requires ncores > 0
  {
    Rows(DmStart(ncores, lda, coreid), DmEnd(ncores, lda, coreid))
  }

  /** dm_matmul.c matmul after the barrier, one core: C += A*B on the rows of that core. */
  method DmMultiply(coreid: nat, ncores: nat, lda: nat, a: View, b: View, b1: View, c: array<int>)
    requires coreid < ncores && lda % 4 == 0 && lda / ncores % 4 == 0
    requires Square(lda, a, b, c.Length) && Square(lda, a, b1, c.Length) && SameCells(lda, b, b1)
    modifies c
    ensures AddsInto(old(c[..]), c[..], a, b, lda, DmMine(coreid, ncores, lda), lda, lda)
  {
    DmRange(ncores, lda, coreid);
    hide Adds, AddsInto, Square, DmStart, DmEnd;
    var start, end := DmStart(ncores, lda, coreid), DmEnd(ncores, lda, coreid);
    if coreid != ncores - 1 {
      DmRows(lda, a, b, c, start, end);
    } else {
      DmRows(lda, a, b1, c, start, end);
      SameProduct(old(c[..]), c[..], a, b, b1, lda, start, end);
    }
    IntoBox(old(c[..]), c[..], a, b, lda, start, end, lda, lda);
  }

  lemma DmOwner(ncores: nat, lda: nat, r: nat) returns (core: nat)
    requires ncores > 0 && r < lda
    ensures core < ncores && DmStart(ncores, lda, core) <= r < DmEnd(ncores, lda, core)
  {
    var w := lda / ncores;
    if r >= w * (ncores - 1) {
      core := ncores - 1;
    } else {
      assert w > 0;
      core := r / w;
      assert r == w * core + r % w;
      if core >= ncores - 1 {
        MulMonotone(ncores - 1, core, w);
      }
    }
  }

  lemma DmDisjoint(ncores: nat, lda: nat, x: nat, y: nat)
    requires x < y < ncores
    ensures DmMine(x, ncores, lda) !! DmMine(y, ncores, lda)
  {
    var w := lda / ncores;
    MulMonotone(x + 1, y, w);
    MulDistributes(x, 1, w);
  }

  /** The rows of all the cores. */
  function DmShares(ncores: nat, lda: nat): seq<set<int>>
    requires 0 < ncores
  {
    seq(ncores, core requires 0 <= core < ncores => DmMine(core, ncores, lda))
  }

  /** Every row has exactly one owner. */
  lemma DmPartition(ncores: nat, lda: nat)
    requires 0 < ncores && lda % 4 == 0 && lda / ncores % 4 == 0
    ensures Partition(DmShares(ncores, lda), lda)
  {
    var rows := DmShares(ncores, lda);
    forall x, y | 0 <= x < y < ncores
      ensures rows[x] !! rows[y]
    {
      DmDisjoint(ncores, lda, x, y);
    }
    forall r
      ensures 0 <= r < lda <==> Owned(rows, r)
    {
      if 0 <= r < lda {
        var core := DmOwner(ncores, lda, r);
        assert r in rows[core];
      }
      if core: nat :| core < ncores && r in rows[core] {
        DmRange(ncores, lda, core);
      }
    }
  }

  /** All cores after the barrier, one after the other in any order, leave C += A*B. */
  method DmTeam(order: seq<nat>, ncores: nat, lda: nat, a: View, b: View, b1: View, c: array<int>)
    requires 0 < ncores && OrderOf(order, ncores) && lda % 4 == 0 && lda / ncores % 4 == 0
    requires Square(lda, a, b, c.Length) && Square(lda, a, b1, c.Length) && SameCells(lda, b, b1)
    modifies c
    ensures AddsProduct(old(c[..]), c[..], a, b, 0, lda, lda, lda, lda)
  {
    hide AddsInto, Square;
    DmPartition(ncores, lda);
    ghost var rows := DmShares(ncores, lda);
    ghost var states := [c[..]];
    for k := 0 to ncores
      invariant |states| == k + 1 && states[0] == old(c[..]) && states[k] == c[..]
      invariant forall i :: 0 <= i < k ==> AddsInto(states[i], states[i + 1], a, b, lda, rows[order[i]], lda, lda)
    {
      DmMultiply(order[k], ncores, lda, a, b, b1, c);
      states := states + [c[..]];
    }
    TeamAdds(states, order, rows, a, b, lda, lda, lda, lda);
  }
}
