/** Strided storage of matrices, and the sums of products that every matrix kernel of the
    repository computes.

    A C pointer with a leading dimension, such as the pair (a, lda), is a View: the cell at
    row i and column j lives at address base + i*ld + j.  Matrices that a kernel only reads
    are views of a value; the matrix it updates in place is an array together with a base
    and a stride, and the addresses it covers are described by RowOf, ColOf and InWindow. */
module Strided {
  import opened Arithmetic

  /** A read-only strided matrix: a pointer into `data` and a leading dimension. */
  datatype View = View(data: seq<int>, base: int, ld: int) {

    /** The cell at row i, column j; zero outside the storage, so that sums are total. */
    function At(i: int, j: int): int {
      var x := base + i * ld + j;
      if 0 <= x < |data| then data[x] else 0
    }

    /** The cell at row i, column j is inside the storage. */
    predicate Has(i: int, j: int) {
      0 <= base + i * ld + j < |data|
    }

    /** Reading the cell at row i, column j. */
    function Get(i: int, j: int): (v: int)
      requires Has(i, j)
      ensures v == At(i, j)
    {
      data[base + i * ld + j]
    }

    /** The pointer expression `a + i*lda + j`. */
    function Shift(i: int, j: int): View {
      View(data, base + i * ld + j, ld)
    }

    /** Every cell of the m x n block at this pointer is inside the storage. */
    predicate Fits(m: int, n: int) {
      m <= 0 || n <= 0 || (0 <= base && 0 <= ld && base + (m - 1) * ld + n <= |data|)
    }
  }

  /** The sum of a[i][k] * b[k][j] for lo <= k < hi. */
  function Dot(a: View, b: View, i: int, j: int, lo: int, hi: int): int
    decreases hi - lo
  {
    if hi <= lo then 0 else Dot(a, b, i, j, lo, hi - 1) + a.At(i, hi - 1) * b.At(hi - 1, j)
  }

  /** The row, relative to a window starting at `base`, of address q. */
  function RowOf(q: int, base: int, ld: int): int
    requires ld > 0
  {
    (q - base) / ld
  }

  /** The column, relative to a window starting at `base`, of address q. */
  function ColOf(q: int, base: int, ld: int): int
    requires ld > 0
  {
    (q - base) % ld
  }

  /** Address q is one of the m x n cells of the window at `base`. */
  predicate InWindow(q: int, base: int, ld: int, m: int, n: int) {
    ld > 0 && 0 <= RowOf(q, base, ld) < m && ColOf(q, base, ld) < n
  }

  /** A box of multiplications: rows i0 <= i < i1, columns j0 <= j < j1 and inner index
      k0 <= k < k1 of a matrix product. */
  datatype Box = Box(i0: int, i1: int, j0: int, j1: int, k0: int, k1: int)

  /** What carrying out the multiplications of a box adds to address q of a window: the slice
      k0..k1 of the inner product if q's row and column are in the box, otherwise nothing. */
  function Share(a: View, b: View, q: int, base: int, ld: int, x: Box): int {
    if ld > 0 && x.i0 <= RowOf(q, base, ld) < x.i1 && x.j0 <= ColOf(q, base, ld) < x.j1 then
      Dot(a, b, RowOf(q, base, ld), ColOf(q, base, ld), x.k0, x.k1)
    else 0
  }

  /** `after` is `before` with exactly the multiplications of the box added into the window at
      (base, ld), each of them once, and every other cell as it was. */
  ghost predicate Adds(before: seq<int>, after: seq<int>, a: View, b: View, base: int, ld: int, x: Box) {
    && |before| == |after|
    && forall q :: 0 <= q < |after| ==> after[q] == before[q] + Share(a, b, q, base, ld, x)
  }

  /** C += A*B: the m x n window of `before` at (base, ld) increased by the product of the m x p
      matrix a and the p x n matrix b, and no other cell changed. */
  ghost predicate AddsProduct(before: seq<int>, after: seq<int>, a: View, b: View,
                              base: int, ld: int, m: int, n: int, p: int) {
    Adds(before, after, a, b, base, ld, Box(0, m, 0, n, 0, p))
  }

  /** Every cell an m x n x p product touches is inside its storage, and the rows of the updated
      window do not overlap. */
  predicate Conforms(m: int, n: int, p: int, a: View, b: View, length: int, base: int, ld: int) {
    && a.Fits(m, p) && b.Fits(p, n)
    && n <= ld
    && (m > 0 && n > 0 ==> 0 <= base && base + (m - 1) * ld + n <= length)
  }

  // ---------- addresses ----------

  /** Division and remainder are the only way to write an address as row and column. */
  lemma Coordinates(q: int, base: int, ld: int, r: int, c: int)
    requires ld > 0 && 0 <= c < ld
    requires q == base + r * ld + c
    ensures RowOf(q, base, ld) == r && ColOf(q, base, ld) == c
  {
    var r' := RowOf(q, base, ld);
    var c' := ColOf(q, base, ld);
    assert (q - base) == r' * ld + c';
    if r' < r {
      MulMonotone(r' + 1, r, ld);
      MulDistributes(r', 1, ld);
    } else if r < r' {
      MulMonotone(r + 1, r', ld);
      MulDistributes(r, 1, ld);
    }
  }

  /** A block of a window is a window: `q` lies in the m x n block at row i, column j exactly when
      its coordinates do, and its coordinates in the block are those in the window, shifted. */
  lemma SubWindow(q: int, base: int, ld: int, i: int, j: int, m: int, n: nat)
    requires ld > 0 && 0 <= j && j + n <= ld
    ensures InWindow(q, base + i * ld + j, ld, m, n)
       <==> i <= RowOf(q, base, ld) < i + m && j <= ColOf(q, base, ld) < j + n
    ensures InWindow(q, base + i * ld + j, ld, m, n) ==>
              && RowOf(q, base + i * ld + j, ld) == RowOf(q, base, ld) - i
              && ColOf(q, base + i * ld + j, ld) == ColOf(q, base, ld) - j
  {
    var inner := base + i * ld + j;
    var r, c := RowOf(q, base, ld), ColOf(q, base, ld);
    assert q - base == r * ld + c;
    MulDistributes(r - i, i, ld);
    if j <= c {
      Coordinates(q, inner, ld, r - i, c - j);
    } else {
      MulDistributes(r - i - 1, 1, ld);
      Coordinates(q, inner, ld, r - i - 1, c - j + ld);
    }
  }

  // ---------- views ----------

  lemma ShiftAt(v: View, i: int, j: int, r: int, c: int)
    ensures v.Shift(i, j).At(r, c) == v.At(i + r, j + c)
  {
    MulDistributes(i, r, v.ld);
  }

  lemma ShiftShift(v: View, i: int, j: int, r: int, c: int)
    ensures v.Shift(i, j).Shift(r, c) == v.Shift(i + r, j + c)
  {
    MulDistributes(i, r, v.ld);
  }

  /** The cells of a block that fits are inside the storage. */
  lemma FitsAt(v: View, m: int, n: int, i: int, j: int)
    requires v.Fits(m, n) && 0 <= i < m && 0 <= j < n
    ensures v.Has(i, j)
  {
    MulMonotone(i, m - 1, v.ld);
    MulMonotone(0, i, v.ld);
  }

  /** A block of a block that fits also fits. */
  lemma FitsShift(v: View, m: int, n: int, i: int, j: int, m': int, n': int)
    requires v.Fits(m, n)
    requires 0 <= i && i + m' <= m && 0 <= j && j + n' <= n
    ensures v.Shift(i, j).Fits(m', n')
  {
    if m' > 0 && n' > 0 {
      MulDistributes(i, m' - 1, v.ld);
      MulMonotone(i + m' - 1, m - 1, v.ld);
      MulMonotone(0, i, v.ld);
    }
  }

  // ---------- sums of products ----------

  lemma DotEmpty(a: View, b: View, i: int, j: int, k: int)
    ensures Dot(a, b, i, j, k, k) == 0
  {
  }

  lemma DotStep(a: View, b: View, i: int, j: int, lo: int, k: int)
    requires lo <= k
    ensures Dot(a, b, i, j, lo, k + 1) == Dot(a, b, i, j, lo, k) + a.At(i, k) * b.At(k, j)
  {
  }

  lemma {:induction false} DotSplit(a: View, b: View, i: int, j: int, lo: int, mid: int, hi: int)
    requires lo <= mid <= hi
    ensures Dot(a, b, i, j, lo, hi) == Dot(a, b, i, j, lo, mid) + Dot(a, b, i, j, mid, hi)
    decreases hi - mid
  {
    if mid < hi {
      DotSplit(a, b, i, j, lo, mid, hi - 1);
    }
  }

  /** Inner products depend only on the cells they read. */
  lemma {:induction false} DotCongruent(a: View, b: View, i: int, j: int, lo: int,
                                        a': View, b': View, i': int, j': int, lo': int, len: nat)
    requires forall k :: lo <= k < lo + len ==> a.At(i, k) == a'.At(i', k - lo + lo')
    requires forall k :: lo <= k < lo + len ==> b.At(k, j) == b'.At(k - lo + lo', j')
    ensures Dot(a, b, i, j, lo, lo + len) == Dot(a', b', i', j', lo', lo' + len)
  {
    if len > 0 {
      DotCongruent(a, b, i, j, lo, a', b', i', j', lo', len - 1);
      var k := lo + len - 1;
      assert a.At(i, k) == a'.At(i', k - lo + lo') && b.At(k, j) == b'.At(k - lo + lo', j');
    }
  }

  /** Multiplying the block of a at (i0, k0) by the block of b at (k0, j0) sums the slice
      k0 <= k < k0 + p of the full inner product. */
  lemma DotShift(a: View, b: View, i0: int, j0: int, k0: int, i: int, j: int, p: nat)
    ensures Dot(a.Shift(i0, k0), b.Shift(k0, j0), i, j, 0, p) == Dot(a, b, i0 + i, j0 + j, k0, k0 + p)
  {
    var a', b' := a.Shift(i0, k0), b.Shift(k0, j0);
    forall k | 0 <= k < p
      ensures a'.At(i, k) == a.At(i0 + i, k - 0 + k0) && b'.At(k, j) == b.At(k - 0 + k0, j0 + j)
    {
      ShiftAt(a, i0, k0, i, k);
      ShiftAt(b, k0, j0, k, j);
    }
    DotCongruent(a', b', i, j, 0, a, b, i0 + i, j0 + j, k0, p);
  }

  /** The contribution of a block product, in the coordinates of the enclosing window. */
  lemma ShareOfBlock(a: View, b: View, q: int, base: int, ld: int,
                     i: int, j: int, k: int, m: int, n: nat, p: nat)
    requires ld > 0 && 0 <= j && j + n <= ld
    ensures Share(a.Shift(i, k), b.Shift(k, j), q, base + i * ld + j, ld, Box(0, m, 0, n, 0, p))
         == Share(a, b, q, base, ld, Box(i, i + m, j, j + n, k, k + p))
  {
    SubWindow(q, base, ld, i, j, m, n);
    if InWindow(q, base + i * ld + j, ld, m, n) {
      DotShift(a, b, i, j, k, RowOf(q, base, ld) - i, ColOf(q, base, ld) - j, p);
    }
  }

  // ---------- composing updates ----------

  /** Multiplying blocks through shifted pointers carries out one box of the whole product. */
  lemma AddsBlock(before: seq<int>, after: seq<int>, a: View, b: View, base: int, ld: int,
                  i: int, j: int, k: int, m: int, n: nat, p: nat)
    requires 0 <= j && j + n <= ld
    requires AddsProduct(before, after, a.Shift(i, k), b.Shift(k, j), base + i * ld + j, ld, m, n, p)
    ensures Adds(before, after, a, b, base, ld, Box(i, i + m, j, j + n, k, k + p))
  {
    if ld > 0 {
      forall q | 0 <= q < |after|
        ensures after[q] == before[q] + Share(a, b, q, base, ld, Box(i, i + m, j, j + n, k, k + p))
      {
        ShareOfBlock(a, b, q, base, ld, i, j, k, m, n, p);
      }
    }
  }

  /** Boxes stacked along the rows, the upper or the lower one first. */
  lemma AddsRows(s0: seq<int>, s1: seq<int>, s2: seq<int>, a: View, b: View, base: int, ld: int, x: Box, i: int)
    requires x.i0 <= i <= x.i1
    requires || (Adds(s0, s1, a, b, base, ld, x.(i1 := i)) && Adds(s1, s2, a, b, base, ld, x.(i0 := i)))
             || (Adds(s0, s1, a, b, base, ld, x.(i0 := i)) && Adds(s1, s2, a, b, base, ld, x.(i1 := i)))
    ensures Adds(s0, s2, a, b, base, ld, x)
  {
    hide Dot;
  }

  /** Boxes side by side along the columns, the left or the right one first. */
  lemma AddsColumns(s0: seq<int>, s1: seq<int>, s2: seq<int>, a: View, b: View, base: int, ld: int, x: Box, j: int)
    requires x.j0 <= j <= x.j1
    requires || (Adds(s0, s1, a, b, base, ld, x.(j1 := j)) && Adds(s1, s2, a, b, base, ld, x.(j0 := j)))
             || (Adds(s0, s1, a, b, base, ld, x.(j0 := j)) && Adds(s1, s2, a, b, base, ld, x.(j1 := j)))
    ensures Adds(s0, s2, a, b, base, ld, x)
  {
    hide Dot;
  }

  /** The two slices of the inner index at k, in either order. */
  lemma AddsSlices(s0: seq<int>, s1: seq<int>, s2: seq<int>, a: View, b: View, base: int, ld: int, x: Box, k: int)
    requires x.k0 <= k <= x.k1
    requires || (Adds(s0, s1, a, b, base, ld, x.(k1 := k)) && Adds(s1, s2, a, b, base, ld, x.(k0 := k)))
             || (Adds(s0, s1, a, b, base, ld, x.(k0 := k)) && Adds(s1, s2, a, b, base, ld, x.(k1 := k)))
    ensures Adds(s0, s2, a, b, base, ld, x)
  {
    forall q | 0 <= q < |s2|
      ensures s2[q] == s0[q] + Share(a, b, q, base, ld, x)
    {
      if ld > 0 {
        DotSplit(a, b, RowOf(q, base, ld), ColOf(q, base, ld), x.k0, k, x.k1);
      }
    }
  }

  /** A box without multiplications changes nothing. */
  lemma AddsNothing(s: seq<int>, a: View, b: View, base: int, ld: int, x: Box)
    requires x.i1 <= x.i0 || x.j1 <= x.j0 || x.k1 <= x.k0
    ensures Adds(s, s, a, b, base, ld, x)
  {
  }

  /** Storing into one cell of the window the k0..k1 slice of its inner product. */
  lemma AddsCell(before: seq<int>, a: View, b: View, base: int, ld: int, i: int, j: int, k0: int, k1: int, v: int)
    requires 0 <= j < ld && 0 <= base + i * ld + j < |before|
    requires v == before[base + i * ld + j] + Dot(a, b, i, j, k0, k1)
    ensures Adds(before, before[base + i * ld + j := v], a, b, base, ld, Box(i, i + 1, j, j + 1, k0, k1))
  {
    var q0 := base + i * ld + j;
    Coordinates(q0, base, ld, i, j);
    var after := before[q0 := v];
    forall q | 0 <= q < |after|
      ensures after[q] == before[q] + Share(a, b, q, base, ld, Box(i, i + 1, j, j + 1, k0, k1))
    {
      if RowOf(q, base, ld) == i && ColOf(q, base, ld) == j {
        assert q - base == i * ld + j;
      }
    }
  }

  /** A cell outside the box is as it was. */
  lemma AddsKeeps(before: seq<int>, after: seq<int>, a: View, b: View, base: int, ld: int, x: Box, i: int, j: int)
    requires Adds(before, after, a, b, base, ld, x)
    requires 0 <= j < ld && 0 <= base + i * ld + j < |before|
    requires !(x.i0 <= i < x.i1 && x.j0 <= j < x.j1)
    ensures after[base + i * ld + j] == before[base + i * ld + j]
  {
    Coordinates(base + i * ld + j, base, ld, i, j);
  }

  /** Product number k of a plain sum is of two cells in memory. */
  predicate Inside(x: seq<int>, xo: int, y: seq<int>, yo: int, step: int, k: int) {
    0 <= xo + k < |x| && 0 <= yo + k * step < |y|
  }

  predicate AllInside(x: seq<int>, xo: int, y: seq<int>, yo: int, step: int, p: nat) {
    forall k :: 0 <= k < p ==> Inside(x, xo, y, yo, step, k)
  }

  /** x[xo]*y[yo] + x[xo + 1]*y[yo + step] + ... with p products. */
  function PlainSum(x: seq<int>, xo: int, y: seq<int>, yo: int, step: int, p: nat): int
    requires AllInside(x, xo, y, yo, step, p)
  {
    if p == 0 then 0
    else
      assert Inside(x, xo, y, yo, step, p - 1);
      PlainSum(x, xo, y, yo, step, p - 1) + x[xo + (p - 1)] * y[yo + (p - 1) * step]
  }

  /** The inner product of row i of a and column j of b, on the memory they lie in: the row with step
      one, the column with the leading dimension as step. */
  lemma {:induction false} DotMeans(a: View, b: View, i: nat, j: nat, m: int, n: int, r: int, p: nat)
    requires a.Fits(m, r) && b.Fits(r, n) && i < m && j < n && p <= r
    ensures AllInside(a.data, a.base + i * a.ld, b.data, b.base + j, b.ld, p)
    ensures Dot(a, b, i, j, 0, p) == PlainSum(a.data, a.base + i * a.ld, b.data, b.base + j, b.ld, p)
  {
    hide View.Fits;
    if p > 0 {
      DotMeans(a, b, i, j, m, n, r, p - 1);
      FitsAt(a, m, r, i, p - 1);
      FitsAt(b, r, n, p - 1, j);
    }
  }

  /** q is the address of none of the m x n cells. */
  predicate Outside(q: int, base: int, ld: int, m: nat, n: nat) {
    forall i, j :: 0 <= i < m && 0 <= j < n ==> Cell(base, ld, i, j) != q
  }

  /** The plain reading of c += a*b: `after` is the one memory in which cell (i, j) of the window
      has gained the inner product of row i of a and column j of b, for all i < m and j < n, and
      every address that is no such cell is as before. */
  lemma AddsProductMeans(before: seq<int>, after: seq<int>, a: View, b: View, base: int, ld: int, m: nat, n: nat,
                         p: nat)
    requires n <= ld && |before| == |after|
    ensures AddsProduct(before, after, a, b, base, ld, m, n, p) <==>
              && (forall i, j :: 0 <= i < m && 0 <= j < n && 0 <= Cell(base, ld, i, j) < |after| ==>
                    after[Cell(base, ld, i, j)] == before[Cell(base, ld, i, j)] + Dot(a, b, i, j, 0, p))
              && (forall q :: 0 <= q < |after| && Outside(q, base, ld, m, n) ==> after[q] == before[q])
  {
    hide Dot;
    var x := Box(0, m, 0, n, 0, p);
    if AddsProduct(before, after, a, b, base, ld, m, n, p) {
      forall i, j | 0 <= i < m && 0 <= j < n && 0 <= Cell(base, ld, i, j) < |after|
        ensures after[Cell(base, ld, i, j)] == before[Cell(base, ld, i, j)] + Dot(a, b, i, j, 0, p)
      {
        Coordinates(Cell(base, ld, i, j), base, ld, i, j);
      }
      forall q | 0 <= q < |after| && (forall i, j :: 0 <= i < m && 0 <= j < n ==> Cell(base, ld, i, j) != q)
        ensures after[q] == before[q]
      {
        if ld > 0 {
          CellOf(q, base, ld);
        }
      }
    }
    if && (forall i, j :: 0 <= i < m && 0 <= j < n && 0 <= Cell(base, ld, i, j) < |after| ==>
             after[Cell(base, ld, i, j)] == before[Cell(base, ld, i, j)] + Dot(a, b, i, j, 0, p))
       && (forall q :: 0 <= q < |after| && (forall i, j :: 0 <= i < m && 0 <= j < n ==> Cell(base, ld, i, j) != q) ==>
             after[q] == before[q])
    {
      forall q | 0 <= q < |after|
        ensures after[q] == before[q] + Share(a, b, q, base, ld, x)
      {
        if ld > 0 {
          CellOf(q, base, ld);
        }
        if ld > 0 && 0 <= RowOf(q, base, ld) < m && ColOf(q, base, ld) < n {
          assert Cell(base, ld, RowOf(q, base, ld), ColOf(q, base, ld)) == q;
        } else {
          forall i, j | 0 <= i < m && 0 <= j < n
            ensures Cell(base, ld, i, j) != q
          {
            Coordinates(Cell(base, ld, i, j), base, ld, i, j);
          }
        }
      }
    }
  }

  /** The address of row i, column j of a window. */
  function Cell(base: int, ld: int, i: int, j: int): int { base + i * ld + j }

  lemma CellOf(q: int, base: int, ld: int)
    requires ld > 0
    ensures Cell(base, ld, RowOf(q, base, ld), ColOf(q, base, ld)) == q
    ensures 0 <= ColOf(q, base, ld) < ld
  {
  }

  /** A block of a product whose operands fit has operands that fit. */
  lemma ConformsBlock(m: int, n: int, p: int, a: View, b: View, length: int, base: int, ld: int,
                      i: int, j: int, k: int, m': int, n': int, p': int)
    requires Conforms(m, n, p, a, b, length, base, ld)
    requires 0 <= i && i + m' <= m && 0 <= j && j + n' <= n && 0 <= k && k + p' <= p
    ensures Conforms(m', n', p', a.Shift(i, k), b.Shift(k, j), length, base + i * ld + j, ld)
  {
    FitsShift(a, m, p, i, k, m', p');
    FitsShift(b, p, n, k, j, p', n');
    if m' > 0 && n' > 0 {
      MulDistributes(i, m' - 1, ld);
      MulMonotone(i + m' - 1, m - 1, ld);
      MulMonotone(0, i, ld);
    }
  }

  /** The cells of a product whose operands fit. */
  lemma ConformsAt(m: int, n: int, p: int, a: View, b: View, length: int, base: int, ld: int, i: int, j: int)
    requires Conforms(m, n, p, a, b, length, base, ld)
    requires 0 <= i < m && 0 <= j < n
    ensures 0 <= base + i * ld + j < length
    ensures forall k :: 0 <= k < p ==> a.Has(i, k) && b.Has(k, j)
  {
    MulMonotone(i, m - 1, ld);
    MulMonotone(0, i, ld);
    forall k | 0 <= k < p
      ensures a.Has(i, k) && b.Has(k, j)
    {
      FitsAt(a, m, p, i, k);
      FitsAt(b, p, n, k, j);
    }
  }
}
