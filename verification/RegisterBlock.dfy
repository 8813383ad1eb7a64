/** riscv-tests/benchmarks/mm: the naive kernel, the 4 x 5 register tile of rb.h, and the
    register-blocked product built from them.  Elements are exact integers. */
module RegisterBlock {
  import opened Strided

  const RBM := 4
  const RBN := 5
  const RBK := 6

  function Fma(x: int, y: int, z: int): int { x * y + z }

  /** The loop of mm.c that computes one cell with four accumulators. */
  method NaiveCell(p: nat, a: View, b: View, i: nat, j: nat, init: int) returns (sum: int)
    requires forall k :: 0 <= k < p ==> a.Has(i, k) && b.Has(k, j)
    ensures sum == init + Dot(a, b, i, j, 0, p)
  {
    hide Dot, View.At, View.Has, View.Get;
    DotEmpty(a, b, i, j, 0);
    var s0, s1, s2, s3 := init, 0, 0, 0;
    var k := 0;
    ghost var group := 0;
    while k < p / 4 * 4
      invariant 0 <= group <= p / 4 && k == group * 4
      invariant s0 + s1 + s2 + s3 == init + Dot(a, b, i, j, 0, k)
    {
      s0 := Fma(a.Get(i, k), b.Get(k, j), s0);
      s1 := Fma(a.Get(i, k + 1), b.Get(k + 1, j), s1);
      s2 := Fma(a.Get(i, k + 2), b.Get(k + 2, j), s2);
      s3 := Fma(a.Get(i, k + 3), b.Get(k + 3, j), s3);
      DotFour(a, b, i, j, k);
      k, group := k + 4, group + 1;
    }
    k := p / 4 * 4;
    while k < p
      invariant p / 4 * 4 <= k <= p
      invariant s0 + s1 + s2 + s3 == init + Dot(a, b, i, j, 0, k)
    {
      s0 := Fma(a.Get(i, k), b.Get(k, j), s0);
      DotStep(a, b, i, j, 0, k);
      k := k + 1;
    }
    sum := (s0 + s1) + (s2 + s3);
  }

  lemma DotFour(a: View, b: View, i: int, j: int, k: nat)
    ensures Dot(a, b, i, j, 0, k + 4) == Dot(a, b, i, j, 0, k)
      + a.At(i, k) * b.At(k, j) + a.At(i, k + 1) * b.At(k + 1, j)
      + a.At(i, k + 2) * b.At(k + 2, j) + a.At(i, k + 3) * b.At(k + 3, j)
  {
    hide Dot, View.At;
    DotStep(a, b, i, j, 0, k);
    DotStep(a, b, i, j, 0, k + 1);
    DotStep(a, b, i, j, 0, k + 2);
    DotStep(a, b, i, j, 0, k + 3);
  }

  method MmNaive(m: nat, n: nat, p: nat, a: View, b: View, c: array<int>, co: int, ldc: nat)
    requires Conforms(m, n, p, a, b, c.Length, co, ldc)
    modifies c
    ensures AddsProduct(old(c[..]), c[..], a, b, co, ldc, m, n, p)
  {
    hide Adds;
    ghost var whole := Box(0, m, 0, n, 0, p);
    var i := 0;
    AddsNothing(c[..], a, b, co, ldc, whole.(i1 := 0));
    while i < m
      invariant 0 <= i <= m
      invariant Adds(old(c[..]), c[..], a, b, co, ldc, whole.(i1 := i))
    {
      ghost var rowStart := c[..];
      ghost var row := whole.(i0 := i, i1 := i + 1);
      var j := 0;
      AddsNothing(c[..], a, b, co, ldc, row.(j1 := 0));
      while j < n
        invariant 0 <= j <= n
        invariant Adds(rowStart, c[..], a, b, co, ldc, row.(j1 := j))
      {
        ConformsAt(m, n, p, a, b, c.Length, co, ldc, i, j);
        ghost var cellStart := c[..];
        var sum := NaiveCell(p, a, b, i, j, c[co + i * ldc + j]);
        c[co + i * ldc + j] := sum;
        AddsCell(cellStart, a, b, co, ldc, i, j, 0, p, sum);
        AddsColumns(rowStart, cellStart, c[..], a, b, co, ldc, row.(j1 := j + 1), j);
        j := j + 1;
      }
      AddsRows(old(c[..]), rowStart, c[..], a, b, co, ldc, whole.(i1 := i + 1), i);
      i := i + 1;
    }
  }

  // ---------- the register tile ----------

  /** Five accumulators of one tile row, or five neighbouring elements of one row of b. */
  datatype Five = Five(x0: int, x1: int, x2: int, x3: int, x4: int)

  function FmaRow(x: int, b: Five, acc: Five): Five {
    Five(Fma(x, b.x0, acc.x0), Fma(x, b.x1, acc.x1), Fma(x, b.x2, acc.x2),
         Fma(x, b.x3, acc.x3), Fma(x, b.x4, acc.x4))
  }

  /** The pointer read b_r[0..5]. */
  function ReadFive(b: View, r: int): (v: Five)
    requires b.Has(r, 0) && b.Has(r, 4)
    ensures v == Five(b.At(r, 0), b.At(r, 1), b.At(r, 2), b.At(r, 3), b.At(r, 4))
  {
    Five(b.Get(r, 0), b.Get(r, 1), b.Get(r, 2), b.Get(r, 3), b.Get(r, 4))
  }

  /** Row r of the tile, started at `init`, after the inner indices lo <= k < hi. */
  ghost function RowAfter(a: View, b: View, r: int, init: Five, lo: int, hi: int): Five {
    Five(init.x0 + Dot(a, b, r, 0, lo, hi), init.x1 + Dot(a, b, r, 1, lo, hi), init.x2 + Dot(a, b, r, 2, lo, hi),
         init.x3 + Dot(a, b, r, 3, lo, hi), init.x4 + Dot(a, b, r, 4, lo, hi))
  }

  /** The twenty accumulators c_0_0 .. c_3_4. */
  datatype Tile = Tile(r0: Five, r1: Five, r2: Five, r3: Five)

  ghost function TileAfter(a: View, b: View, init: Tile, lo: int, hi: int): Tile {
    Tile(RowAfter(a, b, 0, init.r0, lo, hi), RowAfter(a, b, 1, init.r1, lo, hi),
         RowAfter(a, b, 2, init.r2, lo, hi), RowAfter(a, b, 3, init.r3, lo, hi))
  }

  /** One inner index of the tile: c_r_j = fma(a_r[u], b_u[j], c_r_j) for all twenty. */
  method TileStep(a: View, b: View, u: nat, ghost init: Tile, acc: Tile) returns (r: Tile)
    requires a.Has(0, u) && a.Has(1, u) && a.Has(2, u) && a.Has(3, u) && b.Has(u, 0) && b.Has(u, 4)
    requires acc == TileAfter(a, b, init, 0, u)
    ensures r == TileAfter(a, b, init, 0, u + 1)
  {
    var v := ReadFive(b, u);
    r := Tile(FmaRow(a.Get(0, u), v, acc.r0), FmaRow(a.Get(1, u), v, acc.r1),
              FmaRow(a.Get(2, u), v, acc.r2), FmaRow(a.Get(3, u), v, acc.r3));
  }

  lemma RowAfterSlices(a: View, b: View, r: int, init: Five, k: nat, len: nat)
    ensures RowAfter(a.Shift(0, k), b.Shift(k, 0), r, RowAfter(a, b, r, init, 0, k), 0, len)
         == RowAfter(a, b, r, init, 0, k + len)
  {
    forall j | 0 <= j < 5
      ensures Dot(a, b, r, j, 0, k + len) == Dot(a, b, r, j, 0, k) + Dot(a.Shift(0, k), b.Shift(k, 0), r, j, 0, len)
    {
      DotShift(a, b, 0, 0, k, r, j, len);
      DotSplit(a, b, r, j, 0, k, k + len);
    }
  }

  /** Working through shifted pointers continues the same twenty sums. */
  lemma TileAfterSlices(a: View, b: View, init: Tile, k: nat, len: nat)
    ensures TileAfter(a.Shift(0, k), b.Shift(k, 0), TileAfter(a, b, init, 0, k), 0, len)
         == TileAfter(a, b, init, 0, k + len)
  {
    RowAfterSlices(a, b, 0, init.r0, k, len);
    RowAfterSlices(a, b, 1, init.r1, k, len);
    RowAfterSlices(a, b, 2, init.r2, k, len);
    RowAfterSlices(a, b, 3, init.r3, k, len);
  }

  /** The body of the loop over k, unrolled RBK times. */
  method TileSix(a: View, b: View, acc: Tile) returns (r: Tile)
    requires a.Fits(RBM, RBK) && b.Fits(RBK, RBN)
    ensures r == TileAfter(a, b, acc, 0, RBK)
  {
    TileOperands(a, b, RBK);
    assert acc == TileAfter(a, b, acc, 0, 0);
    r := TileStep(a, b, 0, acc, acc);
    r := TileStep(a, b, 1, acc, r);
    r := TileStep(a, b, 2, acc, r);
    r := TileStep(a, b, 3, acc, r);
    r := TileStep(a, b, 4, acc, r);
    r := TileStep(a, b, 5, acc, r);
  }

  predicate Operands(a: View, b: View, u: int) {
    a.Has(0, u) && a.Has(1, u) && a.Has(2, u) && a.Has(3, u) && b.Has(u, 0) && b.Has(u, 4)
  }

  lemma TileOperands(a: View, b: View, p: int)
    requires a.Fits(RBM, p) && b.Fits(p, RBN)
    ensures forall u :: 0 <= u < p ==> Operands(a, b, u)
  {
    forall u | 0 <= u < p
      ensures Operands(a, b, u)
    {
      FitsAt(a, RBM, p, 0, u);
      FitsAt(a, RBM, p, 1, u);
      FitsAt(a, RBM, p, 2, u);
      FitsAt(a, RBM, p, 3, u);
      FitsAt(b, p, RBN, u, 0);
      FitsAt(b, p, RBN, u, 4);
    }
  }

  /** The pointers and sums of kloop after k inner indices. */
  ghost predicate AtIndex(a0: View, b0: View, init: Tile, k: int, a: View, b: View, acc: Tile) {
    && a == a0.Shift(0, k) && b == b0.Shift(k, 0)
    && acc == TileAfter(a0, b0, init, 0, k)
  }

  lemma AtStart(a0: View, b0: View, init: Tile)
    ensures AtIndex(a0, b0, init, 0, a0, b0, init)
  {
  }

  lemma AtPointers(a0: View, b0: View, init: Tile, k: int, a: View, b: View, acc: Tile)
    requires AtIndex(a0, b0, init, k, a, b, acc)
    ensures a == a0.Shift(0, k) && b == b0.Shift(k, 0)
  {
  }

  lemma AtEnd(a0: View, b0: View, init: Tile, k: int, a: View, b: View, acc: Tile)
    requires AtIndex(a0, b0, init, k, a, b, acc)
    ensures acc == TileAfter(a0, b0, init, 0, k)
  {
  }

  /** One iteration of the unrolled loop: a += RBK, b += RBK*ldb. */
  method SixMore(ghost p: nat, ghost a0: View, ghost b0: View, ghost init: Tile, ghost k: nat, a: View, b: View,
                 acc: Tile)
    returns (a': View, b': View, acc': Tile)
    requires a0.Fits(RBM, p) && b0.Fits(p, RBN) && k + RBK <= p && AtIndex(a0, b0, init, k, a, b, acc)
    ensures AtIndex(a0, b0, init, k + RBK, a', b', acc') && a'.base == a0.base + k + RBK
  {
    FitsShift(a0, RBM, p, 0, k, RBM, RBK);
    FitsShift(b0, p, RBN, k, 0, RBK, RBN);
    acc' := TileSix(a, b, acc);
    TileAfterSlices(a0, b0, init, k, RBK);
    ShiftShift(a0, 0, k, 0, RBK);
    ShiftShift(b0, k, 0, RBK, 0);
    a', b' := a.Shift(0, RBK), b.Shift(RBK, 0);
  }

  /** One iteration of the tail loop: a++, b += ldb. */
  method OneMore(ghost p: nat, ghost a0: View, ghost b0: View, ghost init: Tile, ghost k: nat, a: View, b: View,
                 acc: Tile)
    returns (a': View, b': View, acc': Tile)
    requires a0.Fits(RBM, p) && b0.Fits(p, RBN) && k + 1 <= p && AtIndex(a0, b0, init, k, a, b, acc)
    ensures AtIndex(a0, b0, init, k + 1, a', b', acc') && a'.base == a0.base + k + 1
  {
    FitsShift(a0, RBM, p, 0, k, RBM, 1);
    FitsShift(b0, p, RBN, k, 0, 1, RBN);
    TileOperands(a, b, 1);
    assert Operands(a, b, 0);
    acc' := TileStep(a, b, 0, acc, acc);
    TileAfterSlices(a0, b0, init, k, 1);
    ShiftShift(a0, 0, k, 0, 1);
    ShiftShift(b0, k, 0, 1, 0);
    a', b' := a.Shift(0, 1), b.Shift(1, 0);
  }

  /** The two loops of kloop over the inner index, stepping pointers into a and b: RBK at a time
      while a full group is left, then one at a time. */
  method TileSums(p: nat, a0: View, b0: View, init: Tile) returns (acc: Tile)
    requires a0.Fits(RBM, p) && b0.Fits(p, RBN)
    ensures acc == TileAfter(a0, b0, init, 0, p)
  {
    hide AtIndex, View.Fits;
    acc := init;
    var a, b := a0, b0;
    AtStart(a0, b0, init);
    ghost var k, group := 0, 0;
    while a.base < a0.base + p / RBK * RBK
      invariant 0 <= group <= p / RBK && k == group * RBK && a.base == a0.base + k
      invariant AtIndex(a0, b0, init, k, a, b, acc)
      decreases p - k
    {
      a, b, acc := SixMore(p, a0, b0, init, k, a, b, acc);
      k, group := k + RBK, group + 1;
    }
    AtPointers(a0, b0, init, k, a, b, acc);
    a, b := a0.Shift(0, p / RBK * RBK), b0.Shift(p / RBK * RBK, 0);
    while a.base < a0.base + p
      invariant p / RBK * RBK <= k <= p && a.base == a0.base + k
      invariant AtIndex(a0, b0, init, k, a, b, acc)
      decreases p - k
    {
      a, b, acc := OneMore(p, a0, b0, init, k, a, b, acc);
      k := k + 1;
    }
    AtEnd(a0, b0, init, k, a, b, acc);
  }

  /** rb.h kloop: the RBM x RBN tile of c is loaded, updated for every inner index and stored. */
  method KLoop(p: nat, a: View, b: View, c: array<int>, co: int, ldc: nat)
    requires Conforms(RBM, RBN, p, a, b, c.Length, co, ldc)
    modifies c
    ensures AddsProduct(old(c[..]), c[..], a, b, co, ldc, RBM, RBN, p)
  {
    var init := LoadTile(c, co, ldc);
    var acc := TileSums(p, a, b, init);
    StoreTile(p, a, b, init, acc, c, co, ldc);
  }

  /** Row r of the tile as it stands in the window. */
  ghost function RowIn(s: seq<int>, co: int, ldc: nat, r: int): Five {
    var v := View(s, co, ldc);
    Five(v.At(r, 0), v.At(r, 1), v.At(r, 2), v.At(r, 3), v.At(r, 4))
  }

  ghost function TileIn(s: seq<int>, co: int, ldc: nat): Tile {
    Tile(RowIn(s, co, ldc, 0), RowIn(s, co, ldc, 1), RowIn(s, co, ldc, 2), RowIn(s, co, ldc, 3))
  }

  method LoadTile(c: array<int>, co: int, ldc: nat) returns (t: Tile)
    requires View(c[..], co, ldc).Fits(RBM, RBN)
    ensures t == TileIn(c[..], co, ldc)
  {
    var v := View(c[..], co, ldc);
    FitsAt(v, RBM, RBN, 0, 0);
    FitsAt(v, RBM, RBN, 0, 4);
    FitsAt(v, RBM, RBN, 1, 0);
    FitsAt(v, RBM, RBN, 1, 4);
    FitsAt(v, RBM, RBN, 2, 0);
    FitsAt(v, RBM, RBN, 2, 4);
    FitsAt(v, RBM, RBN, 3, 0);
    FitsAt(v, RBM, RBN, 3, 4);
    t := Tile(ReadFive(v, 0), ReadFive(v, 1), ReadFive(v, 2), ReadFive(v, 3));
  }

  /** The five stores c_r[0] .. c_r[4]. */
  method StoreFive(c: array<int>, at: int, v: Five)
    requires 0 <= at && at + 5 <= c.Length
    modifies c
    ensures c[..] == old(c[..])[at := v.x0][at + 1 := v.x1][at + 2 := v.x2][at + 3 := v.x3][at + 4 := v.x4]
  {
    c[at], c[at + 1], c[at + 2], c[at + 3], c[at + 4] := v.x0, v.x1, v.x2, v.x3, v.x4;
  }

  lemma AddsFive(before: seq<int>, a: View, b: View, base: int, ld: nat, r: int, p: nat, v: Five)
    requires 5 <= ld && 0 <= base + r * ld && base + r * ld + 5 <= |before|
    requires v == RowAfter(a, b, r, RowIn(before, base, ld, r), 0, p)
    ensures var at := base + r * ld;
            Adds(before, before[at := v.x0][at + 1 := v.x1][at + 2 := v.x2][at + 3 := v.x3][at + 4 := v.x4],
                 a, b, base, ld, Box(r, r + 1, 0, 5, 0, p))
  {
    var at := base + r * ld;
    var s1 := before[at := v.x0];
    var s2 := s1[at + 1 := v.x1];
    var s3 := s2[at + 2 := v.x2];
    var s4 := s3[at + 3 := v.x3];
    var s5 := s4[at + 4 := v.x4];
    var x := Box(r, r + 1, 0, 5, 0, p);
    AddsCell(before, a, b, base, ld, r, 0, 0, p, v.x0);
    AddsCell(s1, a, b, base, ld, r, 1, 0, p, v.x1);
    AddsColumns(before, s1, s2, a, b, base, ld, x.(j1 := 2), 1);
    AddsCell(s2, a, b, base, ld, r, 2, 0, p, v.x2);
    AddsColumns(before, s2, s3, a, b, base, ld, x.(j1 := 3), 2);
    AddsCell(s3, a, b, base, ld, r, 3, 0, p, v.x3);
    AddsColumns(before, s3, s4, a, b, base, ld, x.(j1 := 4), 3);
    AddsCell(s4, a, b, base, ld, r, 4, 0, p, v.x4);
    AddsColumns(before, s4, s5, a, b, base, ld, x, 4);
  }

  /** Storing one tile row leaves the rows below it to be stored as they were loaded. */
  lemma AddsKeepsRow(before: seq<int>, after: seq<int>, a: View, b: View, base: int, ld: nat, x: Box, r: nat)
    requires RBN <= ld && View(before, base, ld).Has(r, 0) && View(before, base, ld).Has(r, 4)
    requires Adds(before, after, a, b, base, ld, x) && x.i1 <= r
    ensures RowIn(after, base, ld, r) == RowIn(before, base, ld, r)
  {
    forall j | 0 <= j < 5
      ensures View(after, base, ld).At(r, j) == View(before, base, ld).At(r, j)
    {
      Coordinates(base + r * ld + j, base, ld, r, j);
    }
  }

  method StoreRow(r: nat, p: nat, a: View, b: View, v: Five, c: array<int>, co: int, ldc: nat)
    requires r < RBM && RBN <= ldc && View(c[..], co, ldc).Fits(RBM, RBN)
    requires v == RowAfter(a, b, r, RowIn(c[..], co, ldc, r), 0, p)
    modifies c
    ensures Adds(old(c[..]), c[..], a, b, co, ldc, Box(r, r + 1, 0, RBN, 0, p))
    ensures forall r' :: r < r' < RBM ==> RowIn(c[..], co, ldc, r') == RowIn(old(c[..]), co, ldc, r')
  {
    ghost var s0 := c[..];
    FitsAt(View(s0, co, ldc), RBM, RBN, r, 0);
    FitsAt(View(s0, co, ldc), RBM, RBN, r, 4);
    StoreFive(c, co + r * ldc, v);
    AddsFive(s0, a, b, co, ldc, r, p, v);
    forall r' | r < r' < RBM
      ensures RowIn(c[..], co, ldc, r') == RowIn(s0, co, ldc, r')
    {
      FitsAt(View(s0, co, ldc), RBM, RBN, r', 0);
      FitsAt(View(s0, co, ldc), RBM, RBN, r', 4);
      AddsKeepsRow(s0, c[..], a, b, co, ldc, Box(r, r + 1, 0, RBN, 0, p), r');
    }
  }

  /** The twenty stores at the end of kloop. */
  method StoreTile(p: nat, a: View, b: View, ghost init: Tile, t: Tile, c: array<int>, co: int, ldc: nat)
    requires RBN <= ldc && View(c[..], co, ldc).Fits(RBM, RBN)
    requires init == TileIn(c[..], co, ldc) && t == TileAfter(a, b, init, 0, p)
    modifies c
    ensures AddsProduct(old(c[..]), c[..], a, b, co, ldc, RBM, RBN, p)
  {
    ghost var s0 := c[..];
    ghost var x := Box(0, RBM, 0, RBN, 0, p);
    StoreRow(0, p, a, b, t.r0, c, co, ldc);
    ghost var s1 := c[..];
    StoreRow(1, p, a, b, t.r1, c, co, ldc);
    ghost var s2 := c[..];
    AddsRows(s0, s1, s2, a, b, co, ldc, x.(i1 := 2), 1);
    StoreRow(2, p, a, b, t.r2, c, co, ldc);
    ghost var s3 := c[..];
    AddsRows(s0, s2, s3, a, b, co, ldc, x.(i1 := 3), 2);
    StoreRow(3, p, a, b, t.r3, c, co, ldc);
    AddsRows(s0, s3, c[..], a, b, co, ldc, x, 3);
  }

  // ---------- register blocking ----------

  /** kloop called on the tile at row i, column j. */
  method KLoopAt(ghost m: nat, ghost n: nat, p: nat, a: View, b: View, c: array<int>, co: int, ldc: nat, i: nat, j: nat)
    requires Conforms(m, n, p, a, b, c.Length, co, ldc) && i + RBM <= m && j + RBN <= n
    modifies c
    ensures Adds(old(c[..]), c[..], a, b, co, ldc, Box(i, i + RBM, j, j + RBN, 0, p))
  {
    ConformsBlock(m, n, p, a, b, c.Length, co, ldc, i, j, 0, RBM, RBN, p);
    KLoop(p, a.Shift(i, 0), b.Shift(0, j), c, co + i * ldc + j, ldc);
    AddsBlock(old(c[..]), c[..], a, b, co, ldc, i, j, 0, RBM, RBN, p);
  }

  /** mm_naive called on the rows x columns block at row i, column j. */
  method MmNaiveAt(ghost m: nat, ghost n: nat, p: nat, a: View, b: View, c: array<int>, co: int, ldc: nat,
                   i: nat, j: nat, rows: nat, columns: nat)
    requires Conforms(m, n, p, a, b, c.Length, co, ldc) && i + rows <= m && j + columns <= n
    modifies c
    ensures Adds(old(c[..]), c[..], a, b, co, ldc, Box(i, i + rows, j, j + columns, 0, p))
  {
    ConformsBlock(m, n, p, a, b, c.Length, co, ldc, i, j, 0, rows, columns, p);
    MmNaive(rows, columns, p, a.Shift(i, 0), b.Shift(0, j), c, co + i * ldc + j, ldc);
    AddsBlock(old(c[..]), c[..], a, b, co, ldc, i, j, 0, rows, columns, p);
  }

  /** mm.c mm_rb: RBM x RBN tiles, a strip of columns beside each row of tiles, and the rows
      below the last full tile row. */
  method MmRb(m: nat, n: nat, p: nat, a: View, b: View, c: array<int>, co: int, ldc: nat)
    requires Conforms(m, n, p, a, b, c.Length, co, ldc)
    modifies c
    ensures AddsProduct(old(c[..]), c[..], a, b, co, ldc, m, n, p)
  {
    hide Adds, Conforms;
    ghost var whole := Box(0, m, 0, n, 0, p);
    var mb := m / RBM * RBM;
    var i := 0;
    AddsNothing(c[..], a, b, co, ldc, whole.(i1 := 0));
    while i < mb
      invariant 0 <= i <= mb && i % RBM == 0
      invariant Adds(old(c[..]), c[..], a, b, co, ldc, whole.(i1 := i))
    {
      ghost var rowStart := c[..];
      MmRbRow(m, n, p, a, b, c, co, ldc, i);
      AddsRows(old(c[..]), rowStart, c[..], a, b, co, ldc, whole.(i1 := i + RBM), i);
      i := i + RBM;
    }
    ghost var last := c[..];
    MmNaiveAt(m, n, p, a, b, c, co, ldc, mb, 0, m - mb, n);
    AddsRows(old(c[..]), last, c[..], a, b, co, ldc, whole, mb);
  }

  /** One iteration of the outer loop of mm_rb. */
  method MmRbRow(ghost m: nat, n: nat, p: nat, a: View, b: View, c: array<int>, co: int, ldc: nat, i: nat)
    requires Conforms(m, n, p, a, b, c.Length, co, ldc) && i + RBM <= m
    modifies c
    ensures Adds(old(c[..]), c[..], a, b, co, ldc, Box(i, i + RBM, 0, n, 0, p))
  {
    hide Adds, Conforms;
    ghost var row := Box(i, i + RBM, 0, n, 0, p);
    var nb := n / RBN * RBN;
    var j := 0;
    AddsNothing(c[..], a, b, co, ldc, row.(j1 := 0));
    while j < nb
      invariant 0 <= j <= nb && j % RBN == 0
      invariant Adds(old(c[..]), c[..], a, b, co, ldc, row.(j1 := j))
    {
      ghost var tileStart := c[..];
      KLoopAt(m, n, p, a, b, c, co, ldc, i, j);
      AddsColumns(old(c[..]), tileStart, c[..], a, b, co, ldc, row.(j1 := j + RBN), j);
      j := j + RBN;
    }
    ghost var strip := c[..];
    MmNaiveAt(m, n, p, a, b, c, co, ldc, i, nb, RBM, n - nb);
    AddsColumns(old(c[..]), strip, c[..], a, b, co, ldc, row, nb);
  }
}
