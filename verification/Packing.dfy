/** riscv-tests/benchmarks/mm: repack, and the packed layout in which mm_cb keeps its operands.

    Block t of a packed buffer is a contiguous run of rows*columns cells, itself stored row by
    row; block (I, J) of a matrix cut into `across` blocks per row is number across*I + J. */
module Packing {
  import opened Arithmetic
  import opened Strided

  // ---------- copying a rectangle ----------

  /** `after` is `before` with rows i0 <= i < i1 and columns j0 <= j < j1 of the window at
      (base, ld) replaced by those of src, and every other cell as it was. */
  ghost predicate Copied(before: seq<int>, after: seq<int>, src: View, base: int, ld: int,
                         i0: int, i1: int, j0: int, j1: int) {
    && |before| == |after|
    && forall q :: 0 <= q < |after| ==>
         after[q] == if ld > 0 && i0 <= RowOf(q, base, ld) < i1 && j0 <= ColOf(q, base, ld) < j1
                     then src.At(RowOf(q, base, ld), ColOf(q, base, ld))
                     else before[q]
  }

  lemma CopiedRows(s0: seq<int>, s1: seq<int>, s2: seq<int>, src: View, base: int, ld: int,
                   i0: int, i: int, i1: int, j0: int, j1: int)
    requires i0 <= i <= i1
    requires Copied(s0, s1, src, base, ld, i0, i, j0, j1) && Copied(s1, s2, src, base, ld, i, i1, j0, j1)
    ensures Copied(s0, s2, src, base, ld, i0, i1, j0, j1)
  {
    hide View.At;
  }

  lemma CopiedColumns(s0: seq<int>, s1: seq<int>, s2: seq<int>, src: View, base: int, ld: int,
                      i0: int, i1: int, j0: int, j: int, j1: int)
    requires j0 <= j <= j1
    requires Copied(s0, s1, src, base, ld, i0, i1, j0, j) && Copied(s1, s2, src, base, ld, i0, i1, j, j1)
    ensures Copied(s0, s2, src, base, ld, i0, i1, j0, j1)
  {
    hide View.At;
  }

  lemma CopiedNothing(s: seq<int>, src: View, base: int, ld: int, i0: int, i1: int, j0: int, j1: int)
    requires i1 <= i0 || j1 <= j0
    ensures Copied(s, s, src, base, ld, i0, i1, j0, j1)
  {
  }

  lemma CopiedCell(before: seq<int>, src: View, base: int, ld: int, i: int, j: int)
    requires 0 <= j < ld && 0 <= base + i * ld + j < |before|
    ensures Copied(before, before[base + i * ld + j := src.At(i, j)], src, base, ld, i, i + 1, j, j + 1)
  {
    var q0 := base + i * ld + j;
    Coordinates(q0, base, ld, i, j);
    var after := before[q0 := src.At(i, j)];
    forall q | 0 <= q < |after|
      ensures after[q] == if i <= RowOf(q, base, ld) < i + 1 && j <= ColOf(q, base, ld) < j + 1
                          then src.At(RowOf(q, base, ld), ColOf(q, base, ld)) else before[q]
    {
      if RowOf(q, base, ld) == i && ColOf(q, base, ld) == j {
        assert q - base == i * ld + j;
      }
    }
  }

  /** One unrolled iteration of repack: eight loads, then eight stores. */
  method CopyEight(a: array<int>, ao: int, lda: nat, a0: View, i: nat, j: nat)
    requires j + 8 <= lda && 0 <= ao + i * lda + j && ao + i * lda + j + 8 <= a.Length
    requires forall x :: j <= x < j + 8 ==> a0.Has(i, x)
    modifies a
    ensures Copied(old(a[..]), a[..], a0, ao, lda, i, i + 1, j, j + 8)
  {
    hide Copied;
    CopiedNothing(a[..], a0, ao, lda, i, i + 1, j, j);
    var t0, t1, t2, t3 := a0.Get(i, j), a0.Get(i, j + 1), a0.Get(i, j + 2), a0.Get(i, j + 3);
    var t4, t5, t6, t7 := a0.Get(i, j + 4), a0.Get(i, j + 5), a0.Get(i, j + 6), a0.Get(i, j + 7);
    StoreCell(a, ao, lda, a0, i, j, j, t0, old(a[..]));
    StoreCell(a, ao, lda, a0, i, j, j + 1, t1, old(a[..]));
    StoreCell(a, ao, lda, a0, i, j, j + 2, t2, old(a[..]));
    StoreCell(a, ao, lda, a0, i, j, j + 3, t3, old(a[..]));
    StoreCell(a, ao, lda, a0, i, j, j + 4, t4, old(a[..]));
    StoreCell(a, ao, lda, a0, i, j, j + 5, t5, old(a[..]));
    StoreCell(a, ao, lda, a0, i, j, j + 6, t6, old(a[..]));
    StoreCell(a, ao, lda, a0, i, j, j + 7, t7, old(a[..]));
  }

  /** a[i*lda + j] = v, extending a copied run of row i that started at column j0. */
  method StoreCell(a: array<int>, ao: int, lda: nat, ghost a0: View, i: nat, ghost j0: nat, j: nat, v: int,
                   ghost before: seq<int>)
    requires j0 <= j < lda && 0 <= ao + i * lda + j < a.Length && v == a0.At(i, j)
    requires Copied(before, a[..], a0, ao, lda, i, i + 1, j0, j)
    modifies a
    ensures Copied(before, a[..], a0, ao, lda, i, i + 1, j0, j + 1)
  {
    hide Copied;
    ghost var mid := a[..];
    a[ao + i * lda + j] := v;
    CopiedCell(mid, a0, ao, lda, i, j);
    CopiedColumns(before, mid, a[..], a0, ao, lda, i, i + 1, j0, j, j + 1);
  }

  /** mm.c repack: an m x p rectangle is copied from a0 into the window at (ao, lda) of a, eight
      columns at a time and then one at a time. */
  method Repack(a: array<int>, ao: int, lda: nat, a0: View, m: nat, p: nat)
    requires a0.Fits(m, p)
    requires p <= lda && (m > 0 && p > 0 ==> 0 <= ao && ao + (m - 1) * lda + p <= a.Length)
    modifies a
    ensures Copied(old(a[..]), a[..], a0, ao, lda, 0, m, 0, p)
  {
    hide Copied, View.Fits;
    var i := 0;
    CopiedNothing(a[..], a0, ao, lda, 0, 0, 0, p);
    while i < m
      invariant 0 <= i <= m
      invariant Copied(old(a[..]), a[..], a0, ao, lda, 0, i, 0, p)
    {
      ghost var rowStart := a[..];
      RepackRow(a, ao, lda, a0, m, p, i);
      CopiedRows(old(a[..]), rowStart, a[..], a0, ao, lda, 0, i, i + 1, 0, p);
      i := i + 1;
    }
  }

  method RepackRow(a: array<int>, ao: int, lda: nat, a0: View, ghost m: nat, p: nat, i: nat)
    requires a0.Fits(m, p) && i < m
    requires p <= lda && (p > 0 ==> 0 <= ao && ao + (m - 1) * lda + p <= a.Length)
    modifies a
    ensures Copied(old(a[..]), a[..], a0, ao, lda, i, i + 1, 0, p)
  {
    hide Copied;
    RowBounds(a.Length, ao, lda, a0, m, p, i);
    hide View.Fits, View.Has;
    var j := 0;
    ghost var group := 0;
    CopiedNothing(a[..], a0, ao, lda, i, i + 1, 0, 0);
    while j < p / 8 * 8
      invariant 0 <= group <= p / 8 && j == group * 8
      invariant Copied(old(a[..]), a[..], a0, ao, lda, i, i + 1, 0, j)
    {
      ghost var mid := a[..];
      CopyEight(a, ao, lda, a0, i, j);
      CopiedColumns(old(a[..]), mid, a[..], a0, ao, lda, i, i + 1, 0, j, j + 8);
      j, group := j + 8, group + 1;
    }
    j := p / 8 * 8;
    while j < p
      invariant p / 8 * 8 <= j <= p
      invariant Copied(old(a[..]), a[..], a0, ao, lda, i, i + 1, 0, j)
    {
      StoreCell(a, ao, lda, a0, i, 0, j, a0.Get(i, j), old(a[..]));
      j := j + 1;
    }
  }

  lemma RowBounds(length: int, ao: int, lda: nat, a0: View, m: nat, p: nat, i: nat)
    requires a0.Fits(m, p) && i < m
    requires p <= lda && (p > 0 ==> 0 <= ao && ao + (m - 1) * lda + p <= length)
    ensures p > 0 ==> 0 <= ao + i * lda && ao + i * lda + p <= length
    ensures forall j :: 0 <= j < p ==> a0.Has(i, j)
  {
    MulMonotone(i, m - 1, lda);
    MulMonotone(0, i, lda);
    forall j | 0 <= j < p
      ensures a0.Has(i, j)
    {
      FitsAt(a0, m, p, i, j);
    }
  }

  // ---------- packed blocks ----------

  /** Block t of a packed buffer whose blocks are rows x columns. */
  function Block(s: seq<int>, t: int, rows: int, columns: int): View {
    View(s, t * (rows * columns), columns)
  }

  /** Block t of `s` holds the rows x columns rectangle of src at (i, j). */
  ghost predicate Holds(s: seq<int>, t: int, rows: int, columns: int, src: View, i: int, j: int) {
    forall r, c :: 0 <= r < rows && 0 <= c < columns ==> Block(s, t, rows, columns).At(r, c) == src.At(i + r, j + c)
  }

  /** The first `count` blocks of `s` hold the blocks of src, `across` of them to a row of blocks. */
  ghost predicate Packed(s: seq<int>, count: int, across: int, rows: int, columns: int, src: View) {
    across > 0 ==>
      forall t :: 0 <= t < count ==> Holds(s, t, rows, columns, src, t / across * rows, t % across * columns)
  }

  /** The number of block (I, J) determines I and J. */
  lemma BlockNumber(across: int, down: int, bi: int, bj: int)
    requires 0 <= bi < down && 0 <= bj < across
    ensures 0 <= across * bi + bj < across * down
    ensures (across * bi + bj) / across == bi && (across * bi + bj) % across == bj
  {
    Coordinates(across * bi + bj, 0, across, bi, bj);
    MulMonotone(bi + 1, down, across);
    MulMonotone(0, bi, across);
  }

  /** Cell (r, c) of block t', in the coordinates of block t. */
  lemma BlockCell(t: int, t': int, rows: int, columns: int, r: int, c: int)
    requires 0 < columns && 0 <= c < columns
    ensures var q := t' * (rows * columns) + r * columns + c;
            && RowOf(q, t * (rows * columns), columns) == (t' - t) * rows + r
            && ColOf(q, t * (rows * columns), columns) == c
  {
    var q := t' * (rows * columns) + r * columns + c;
    assert q == t * (rows * columns) + ((t' - t) * rows + r) * columns + c;
    Coordinates(q, t * (rows * columns), columns, (t' - t) * rows + r, c);
  }

  /** Cell (r, c) of block t lies in the t-th run of rows*columns cells. */
  lemma BlockRange(t: int, rows: int, columns: int, r: int, c: int)
    requires 0 <= r < rows && 0 <= c < columns
    ensures 0 <= r * columns + c < rows * columns
  {
    MulMonotone(r + 1, rows, columns);
    MulMonotone(0, r, columns);
  }

  // ---------- the packed layout is a bijection ----------

  /** Where mm_cb keeps row i, column j of a matrix packed in rows x columns blocks. */
  function PackedIndex(across: int, rows: int, columns: int, i: int, j: int): int
    requires 0 < rows && 0 < columns
  {
    (across * (i / rows) + j / columns) * (rows * columns) + (i % rows) * columns + j % columns
  }

  /** The row and column kept in a cell of the packed buffer. */
  function PackedCell(across: int, rows: int, columns: int, x: int): (int, int)
    requires 0 < across && 0 < rows && 0 < columns && 0 < rows * columns
  {
    var t, q := x / (rows * columns), x % (rows * columns);
    (t / across * rows + q / columns, t % across * columns + q % columns)
  }

  /** Every cell of the matrix has its own in-range cell of the buffer. */
  lemma PackedIndexInRange(down: nat, across: nat, rows: nat, columns: nat, i: int, j: int)
    requires 0 < rows && 0 < columns && 0 < rows * columns
    requires 0 <= i < down * rows && 0 <= j < across * columns
    ensures 0 < across && 0 <= PackedIndex(across, rows, columns, i, j) < (down * across) * (rows * columns)
    ensures PackedCell(across, rows, columns, PackedIndex(across, rows, columns, i, j)) == (i, j)
  {
    var bi, bj, r, c := i / rows, j / columns, i % rows, j % columns;
    var t := across * bi + bj;
    BlockDigits(i, rows, down);
    BlockDigits(j, columns, across);
    BlockNumber(across, down, bi, bj);
    JoinDigits(r, c, columns, rows);
    JoinDigits(t, r * columns + c, rows * columns, down * across);
  }

  lemma BlockDigits(i: int, step: int, count: int)
    requires 0 < step && 0 <= i < count * step
    ensures 0 <= i / step < count && i == (i / step) * step + i % step
  {
    if count <= i / step {
      MulMonotone(count, i / step, step);
    }
  }

  /** Every cell of the buffer is used, by exactly the cell PackedCell names. */
  lemma PackedIndexCovers(down: nat, across: nat, rows: nat, columns: nat, x: int)
    requires 0 < across && 0 < rows && 0 < columns && 0 < rows * columns
    requires 0 <= x < (down * across) * (rows * columns)
    ensures var (i, j) := PackedCell(across, rows, columns, x);
            && 0 <= i < down * rows && 0 <= j < across * columns
            && PackedIndex(across, rows, columns, i, j) == x
  {
    var size := rows * columns;
    var t, q := x / size, x % size;
    var bi, bj, r, c := t / across, t % across, q / columns, q % columns;
    BlockDigits(x, size, down * across);
    CoversParts(down, across, rows, columns, t, q);
    JoinDigits(bi, r, rows, down);
    JoinDigits(bj, c, columns, across);
  }

  lemma CoversParts(down: nat, across: nat, rows: nat, columns: nat, t: int, q: int)
    requires 0 < across && 0 < columns && 0 <= t < down * across && 0 <= q < rows * columns
    ensures 0 <= t / across < down && 0 <= q / columns < rows
    ensures across * (t / across) + t % across == t && q / columns * columns + q % columns == q
  {
    BlockDigits(t, across, down);
    BlockDigits(q, columns, rows);
  }

  lemma JoinDigits(hi: int, lo: int, step: int, count: int)
    requires 0 <= hi < count && 0 <= lo < step
    ensures 0 <= hi * step + lo < count * step
    ensures (hi * step + lo) / step == hi && (hi * step + lo) % step == lo
  {
    Coordinates(hi * step + lo, 0, step, hi, lo);
    MulMonotone(hi + 1, count, step);
    MulMonotone(0, hi, step);
  }

  /** A packed buffer keeps row i, column j of its matrix in the cell PackedIndex names. */
  lemma PackedAt(s: seq<int>, down: nat, across: nat, rows: nat, columns: nat, src: View, i: int, j: int)
    requires Packed(s, down * across, across, rows, columns, src) && |s| == (down * across) * (rows * columns)
    requires 0 < rows && 0 < columns && 0 < rows * columns && 0 <= i < down * rows && 0 <= j < across * columns
    ensures 0 <= PackedIndex(across, rows, columns, i, j) < |s|
    ensures s[PackedIndex(across, rows, columns, i, j)] == src.At(i, j)
  {
    var bi, bj, r, c := i / rows, j / columns, i % rows, j % columns;
    var t := across * bi + bj;
    PackedIndexInRange(down, across, rows, columns, i, j);
    BlockDigits(i, rows, down);
    BlockDigits(j, columns, across);
    BlockNumber(across, down, bi, bj);
    AcrossDown(across, down);
    hide View.At, PackedCell;
    assert Holds(s, t, rows, columns, src, bi * rows, bj * columns);
    BlockAddress(s, t, rows, columns, r, c);
    assert Block(s, t, rows, columns).At(r, c) == src.At(bi * rows + r, bj * columns + c);
  }

  lemma AcrossDown(across: nat, down: nat)
    ensures across * down == down * across
  {
  }

  lemma BlockAddress(s: seq<int>, t: int, rows: int, columns: int, r: int, c: int)
    requires 0 <= t * (rows * columns) + r * columns + c < |s|
    ensures Block(s, t, rows, columns).At(r, c) == s[t * (rows * columns) + r * columns + c]
  {
  }

  /** So nothing else is in it: cell x holds the row and column PackedCell names. */
  lemma PackedContents(s: seq<int>, down: nat, across: nat, rows: nat, columns: nat, src: View, x: int)
    requires Packed(s, down * across, across, rows, columns, src) && |s| == (down * across) * (rows * columns)
    requires 0 < across && 0 < rows && 0 < columns && 0 < rows * columns && 0 <= x < |s|
    ensures var (i, j) := PackedCell(across, rows, columns, x); s[x] == src.At(i, j)
  {
    hide Packed, PackedCell, PackedIndex, View.At;
    PackedIndexCovers(down, across, rows, columns, x);
    var (i, j) := PackedCell(across, rows, columns, x);
    PackedAt(s, down, across, rows, columns, src, i, j);
  }

  /** Repacking a rectangle into block t fills that block. */
  lemma CopiedFillsBlock(before: seq<int>, after: seq<int>, t: nat, rows: nat, columns: nat, src: View, i: int, j: int)
    requires (t + 1) * (rows * columns) <= |before|
    requires Copied(before, after, src.Shift(i, j), t * (rows * columns), columns, 0, rows, 0, columns)
    ensures Holds(after, t, rows, columns, src, i, j)
  {
    forall r, c | 0 <= r < rows && 0 <= c < columns
      ensures Block(after, t, rows, columns).At(r, c) == src.At(i + r, j + c)
    {
      BlockCell(t, t, rows, columns, r, c);
      BlockRange(t, rows, columns, r, c);
      ShiftAt(src, i, j, r, c);
    }
  }

  /** It leaves the other blocks as they were. */
  lemma CopiedKeepsBlock(before: seq<int>, after: seq<int>, t: nat, rows: nat, columns: nat, src: View,
                         t': nat, src': View, i': int, j': int)
    requires Copied(before, after, src, t * (rows * columns), columns, 0, rows, 0, columns)
    requires t' != t && Holds(before, t', rows, columns, src', i', j')
    ensures Holds(after, t', rows, columns, src', i', j')
  {
    forall r, c | 0 <= r < rows && 0 <= c < columns
      ensures Block(after, t', rows, columns).At(r, c) == src'.At(i' + r, j' + c)
    {
      assert Block(before, t', rows, columns).At(r, c) == src'.At(i' + r, j' + c);
      BlockCell(t, t', rows, columns, r, c);
      if t' < t {
        MulMonotone(t' - t, -1, rows);
      } else {
        MulMonotone(1, t' - t, rows);
      }
    }
  }

  /** Counter i has advanced bi steps. */
  ghost predicate Steps(i: int, bi: int, step: int) { i == bi * step }

  lemma StepsBound(i: int, bi: int, bound: int, count: int, step: int)
    requires 0 < step && Steps(i, bi, step) && Steps(bound, count, step)
    ensures i < bound <==> bi < count
    ensures i <= bound <==> bi <= count
    ensures Steps(i + step, bi + 1, step) && i / step == bi
  {
    MulDistributes(bi, 1, step);
    Coordinates(i, 0, step, bi, 0);
    if bi < count {
      MulMonotone(bi + 1, count, step);
    } else if count < bi {
      MulMonotone(count + 1, bi, step);
      MulDistributes(count, 1, step);
    }
  }

  /** A buffer for `down` x `across` blocks, and the height and width of what they cover. */
  ghost predicate Buffer(length: int, down: int, across: int, rows: int, columns: int, height: int, width: int) {
    && 0 < rows && 0 < columns && Steps(height, down, rows) && Steps(width, across, columns)
    && length == (down * across) * (rows * columns)
  }

  /** The block that repack fills at (i, j) = (I*rows, J*columns) is in range and counted right. */
  lemma PackTarget(length: int, down: nat, across: nat, rows: nat, columns: nat, height: nat, width: nat,
                   i: nat, j: nat, bi: nat, bj: nat)
    requires Buffer(length, down, across, rows, columns, height, width)
    requires bi < down && bj < across && Steps(i, bi, rows) && Steps(j, bj, columns)
    ensures i + rows <= height && j + columns <= width
    ensures var t := across * bi + bj;
            && t == across * (i / rows) + j / columns && 0 <= t < down * across
            && 0 <= t * (rows * columns) && (t + 1) * (rows * columns) <= length
            && t * (rows * columns) + (rows - 1) * columns + columns <= length
  {
    var t := across * bi + bj;
    BlockNumber(across, down, bi, bj);
    StepsBound(i, bi, height, down, rows);
    StepsBound(j, bj, width, across, columns);
    StepsBound(i + rows, bi + 1, height, down, rows);
    StepsBound(j + columns, bj + 1, width, across, columns);
    MulMonotone(t + 1, down * across, rows * columns);
    MulMonotone(0, t, rows * columns);
    MulDistributes(t, 1, rows * columns);
    MulDistributes(rows - 1, 1, columns);
  }

  /** One call of repack while packing: block (I, J) at i = I*rows, j = J*columns. */
  method PackBlock(dst: array<int>, ghost down: nat, across: nat, rows: nat, columns: nat, ghost height: nat,
                   ghost width: nat,
                   src: View, i: nat, j: nat, ghost bi: nat, ghost bj: nat)
    requires Buffer(dst.Length, down, across, rows, columns, height, width) && src.Fits(height, width)
    requires bi < down && bj < across && Steps(i, bi, rows) && Steps(j, bj, columns)
    requires Packed(dst[..], across * bi + bj, across, rows, columns, src)
    modifies dst
    ensures Packed(dst[..], across * bi + bj + 1, across, rows, columns, src)
  {
    PackTarget(dst.Length, down, across, rows, columns, height, width, i, j, bi, bj);
    FitsShift(src, height, width, i, j, rows, columns);
    hide Copied, Holds, Packed, View.Fits;
    ghost var before := dst[..];
    Repack(dst, (across * (i / rows) + j / columns) * (rows * columns), columns, src.Shift(i, j), rows, columns);
    PackedOneMore(before, dst[..], down, across, rows, columns, height, width, src, i, j, bi, bj);
  }

  lemma PackedOneMore(before: seq<int>, after: seq<int>, down: nat, across: nat, rows: nat, columns: nat,
                      height: nat, width: nat, src: View, i: nat, j: nat, bi: nat, bj: nat)
    requires Buffer(|before|, down, across, rows, columns, height, width)
    requires bi < down && bj < across && Steps(i, bi, rows) && Steps(j, bj, columns)
    requires Packed(before, across * bi + bj, across, rows, columns, src)
    requires Copied(before, after, src.Shift(i, j), (across * bi + bj) * (rows * columns), columns, 0, rows, 0, columns)
    ensures Packed(after, across * bi + bj + 1, across, rows, columns, src)
  {
    PackTarget(|before|, down, across, rows, columns, height, width, i, j, bi, bj);
    BlockNumber(across, down, bi, bj);
    hide Copied, Holds, Buffer;
    var done := across * bi + bj;
    forall t | 0 <= t < done + 1
      ensures Holds(after, t, rows, columns, src, t / across * rows, t % across * columns)
    {
      if t == done {
        CopiedFillsBlock(before, after, t, rows, columns, src, i, j);
      } else {
        CopiedKeepsBlock(before, after, done, rows, columns, src.Shift(i, j), t, src, t / across * rows,
                         t % across * columns);
      }
    }
  }

  /** A loop nest of mm_cb that packs a matrix: rows x columns blocks, in row-major order. */
  method PackBlocks(dst: array<int>, ghost down: nat, across: nat, rows: nat, columns: nat, height: nat, width: nat,
                    src: View)
    requires Buffer(dst.Length, down, across, rows, columns, height, width) && src.Fits(height, width)
    modifies dst
    ensures Packed(dst[..], down * across, across, rows, columns, src)
  {
    BufferFacts(dst.Length, down, across, rows, columns, height, width);
    hide View.Fits, Packed, Buffer, Steps;
    PackedStart(dst[..], across, rows, columns, src);
    var i := 0;
    ghost var bi, done := 0, 0;
    while i < height
      invariant 0 <= bi <= down && Steps(i, bi, rows) && Steps(done, bi, across)
      invariant Packed(dst[..], done, across, rows, columns, src)
      decreases down - bi
    {
      StepsBound(i, bi, height, down, rows);
      PackRow(dst, down, across, rows, columns, height, width, src, i, bi, done);
      StepsNext(done, bi, across);
      i, bi, done := i + rows, bi + 1, done + across;
    }
    StepsBound(i, bi, height, down, rows);
    StepsTotal(done, down, across);
  }

  method PackRow(dst: array<int>, ghost down: nat, across: nat, rows: nat, columns: nat, ghost height: nat, width: nat,
                 src: View, i: nat, ghost bi: nat, ghost done: int)
    requires Buffer(dst.Length, down, across, rows, columns, height, width) && src.Fits(height, width)
    requires bi < down && Steps(i, bi, rows) && Steps(done, bi, across)
    requires Packed(dst[..], done, across, rows, columns, src)
    modifies dst
    ensures Packed(dst[..], done + across, across, rows, columns, src)
  {
    BufferFacts(dst.Length, down, across, rows, columns, height, width);
    StepsTotal(done, bi, across);
    hide View.Fits, Packed, Buffer, Steps;
    var j := 0;
    ghost var bj := 0;
    while j < width
      invariant 0 <= bj <= across && Steps(j, bj, columns)
      invariant Packed(dst[..], done + bj, across, rows, columns, src)
      decreases across - bj
    {
      StepsBound(j, bj, width, across, columns);
      PackBlock(dst, down, across, rows, columns, height, width, src, i, j, bi, bj);
      j, bj := j + columns, bj + 1;
    }
    StepsBound(j, bj, width, across, columns);
  }

  lemma StepsNext(i: int, bi: int, step: int)
    requires Steps(i, bi, step)
    ensures Steps(i + step, bi + 1, step)
  {
    MulDistributes(bi, 1, step);
  }

  lemma StepsTotal(i: int, bi: int, step: int)
    requires Steps(i, bi, step)
    ensures i == bi * step == step * bi
  {
  }

  lemma BufferFacts(length: int, down: int, across: int, rows: int, columns: int, height: int, width: int)
    requires Buffer(length, down, across, rows, columns, height, width)
    ensures 0 < rows && 0 < columns && Steps(height, down, rows) && Steps(width, across, columns)
    ensures Steps(0, 0, rows) && Steps(0, 0, columns) && Steps(0, 0, across)
  {
  }

  lemma PackedStart(s: seq<int>, across: int, rows: int, columns: int, src: View)
    ensures Packed(s, 0, across, rows, columns, src)
  {
  }

  // ---------- unpacking ----------

  /** Copying block (i, j) of a packed matrix back copies that rectangle of the matrix. */
  lemma BlockCopiedBack(before: seq<int>, after: seq<int>, s: seq<int>, t: int, rows: nat, columns: nat, src: View,
                        base: int, ld: int, i: int, j: int)
    requires 0 <= j && j + columns <= ld && Holds(s, t, rows, columns, src, i, j)
    requires Copied(before, after, Block(s, t, rows, columns), base + i * ld + j, ld, 0, rows, 0, columns)
    ensures Copied(before, after, src, base, ld, i, i + rows, j, j + columns)
  {
    forall q | 0 <= q < |after|
      ensures after[q] == if ld > 0 && i <= RowOf(q, base, ld) < i + rows && j <= ColOf(q, base, ld) < j + columns
                          then src.At(RowOf(q, base, ld), ColOf(q, base, ld)) else before[q]
    {
      if ld > 0 {
        SubWindow(q, base, ld, i, j, rows, columns);
        var r, c := RowOf(q, base, ld), ColOf(q, base, ld);
        hide View.At, Block, RowOf, ColOf;
        if i <= r < i + rows && j <= c < j + columns {
          assert Block(s, t, rows, columns).At(r - i, c - j) == src.At(i + (r - i), j + (c - j));
        }
      }
    }
  }

  /** Where the matrix is copied back to. */
  ghost predicate Target(length: int, base: int, ld: int, height: int, width: int) {
    width <= ld && (height > 0 && width > 0 ==> 0 <= base && base + (height - 1) * ld + width <= length)
  }

  lemma TargetBlock(length: int, base: int, ld: nat, height: int, width: int, i: nat, j: nat, rows: nat, columns: nat)
    requires Target(length, base, ld, height, width) && 0 < rows && 0 < columns && i + rows <= height
      && j + columns <= width
    ensures 0 <= base + i * ld + j && base + i * ld + j + (rows - 1) * ld + columns <= length
  {
    MulMonotone(0, i, ld);
    MulMonotone(i + (rows - 1), height - 1, ld);
    MulDistributes(i, rows - 1, ld);
  }

  lemma BlockFits(s: seq<int>, t: nat, rows: nat, columns: nat)
    requires 0 < rows && 0 < columns && t * (rows * columns) + (rows - 1) * columns + columns <= |s|
    ensures Block(s, t, rows, columns).Fits(rows, columns)
  {
    MulMonotone(0, t, rows * columns);
  }

  /** One call of repack while unpacking. */
  method UnpackBlock(s: seq<int>, ghost down: nat, across: nat, rows: nat, columns: nat, ghost height: nat,
                     ghost width: nat,
                     ghost src: View, c: array<int>, co: int, ldc: nat, i: nat, j: nat, ghost bi: nat, ghost bj: nat)
    requires Buffer(|s|, down, across, rows, columns, height, width) && Target(c.Length, co, ldc, height, width)
    requires Packed(s, across * down, across, rows, columns, src)
    requires bi < down && bj < across && Steps(i, bi, rows) && Steps(j, bj, columns)
    modifies c
    ensures Copied(old(c[..]), c[..], src, co, ldc, i, i + rows, j, j + columns)
  {
    ghost var number := across * bi + bj;
    PackTarget(|s|, down, across, rows, columns, height, width, i, j, bi, bj);
    TargetBlock(c.Length, co, ldc, height, width, i, j, rows, columns);
    BlockFits(s, number, rows, columns);
    BlockNumber(across, down, bi, bj);
    assert Holds(s, number, rows, columns, src, bi * rows, bj * columns);
    hide Copied, Holds, Packed, View.Fits, Buffer, Block;
    var t := across * (i / rows) + j / columns;
    Repack(c, co + i * ldc + j, ldc, Block(s, t, rows, columns), rows, columns);
    BlockCopiedBack(old(c[..]), c[..], s, t, rows, columns, src, co, ldc, i, j);
  }

  method UnpackRow(s: seq<int>, ghost down: nat, across: nat, rows: nat, columns: nat, ghost height: nat, width: nat,
                   ghost src: View, c: array<int>, co: int, ldc: nat, i: nat, ghost bi: nat)
    requires Buffer(|s|, down, across, rows, columns, height, width) && Target(c.Length, co, ldc, height, width)
    requires Packed(s, across * down, across, rows, columns, src) && bi < down && Steps(i, bi, rows)
    modifies c
    ensures Copied(old(c[..]), c[..], src, co, ldc, i, i + rows, 0, width)
  {
    BufferFacts(|s|, down, across, rows, columns, height, width);
    hide Copied, Packed, Buffer, Steps, Target;
    CopiedNothing(c[..], src, co, ldc, i, i + rows, 0, 0);
    var j := 0;
    ghost var bj := 0;
    while j < width
      invariant 0 <= bj <= across && Steps(j, bj, columns)
      invariant Copied(old(c[..]), c[..], src, co, ldc, i, i + rows, 0, j)
      decreases across - bj
    {
      ghost var mid := c[..];
      StepsBound(j, bj, width, across, columns);
      UnpackBlock(s, down, across, rows, columns, height, width, src, c, co, ldc, i, j, bi, bj);
      CopiedColumns(old(c[..]), mid, c[..], src, co, ldc, i, i + rows, 0, j, j + columns);
      j, bj := j + columns, bj + 1;
    }
    StepsBound(j, bj, width, across, columns);
  }

  /** The last loop nest of mm_cb: the whole of a packed matrix is copied back, and nothing else
      changes. */
  method UnpackBlocks(s: seq<int>, ghost down: nat, across: nat, rows: nat, columns: nat, height: nat, width: nat,
                      ghost src: View, c: array<int>, co: int, ldc: nat)
    requires Buffer(|s|, down, across, rows, columns, height, width) && Target(c.Length, co, ldc, height, width)
    requires Packed(s, down * across, across, rows, columns, src)
    modifies c
    ensures Copied(old(c[..]), c[..], src, co, ldc, 0, height, 0, width)
  {
    BufferFacts(|s|, down, across, rows, columns, height, width);
    AcrossDown(across, down);
    hide Copied, Packed, Buffer, Steps, Target;
    CopiedNothing(c[..], src, co, ldc, 0, 0, 0, width);
    var i := 0;
    ghost var bi := 0;
    while i < height
      invariant 0 <= bi <= down && Steps(i, bi, rows)
      invariant Copied(old(c[..]), c[..], src, co, ldc, 0, i, 0, width)
      decreases down - bi
    {
      ghost var mid := c[..];
      StepsBound(i, bi, height, down, rows);
      UnpackRow(s, down, across, rows, columns, height, width, src, c, co, ldc, i, bi);
      CopiedRows(old(c[..]), mid, c[..], src, co, ldc, 0, i, i + rows, 0, width);
      i, bi := i + rows, bi + 1;
    }
    StepsBound(i, bi, height, down, rows);
  }

  /** Packing a window and copying it back, into whatever the memory holds by then, restores the
      window and changes nothing else. */
  lemma Restored(packed: seq<int>, before: seq<int>, after: seq<int>, base: int, ld: nat, height: nat, width: nat)
    requires |packed| == |before|
    ensures Copied(before, after, View(packed, base, ld), base, ld, 0, height, 0, width) <==>
            |after| == |before| && forall q :: 0 <= q < |after| ==>
              after[q] == if InWindow(q, base, ld, height, width) then packed[q] else before[q]
  {
    forall q | 0 <= q < |before| && ld > 0
      ensures View(packed, base, ld).At(RowOf(q, base, ld), ColOf(q, base, ld)) == packed[q]
    {
      CellOf(q, base, ld);
    }
  }

  /** In particular, right after packing it changes nothing at all. */
  lemma RestoredAtOnce(s: seq<int>, after: seq<int>, base: int, ld: nat, height: nat, width: nat)
    requires Copied(s, after, View(s, base, ld), base, ld, 0, height, 0, width)
    ensures after == s
  {
    Restored(s, s, after, base, ld, height, width);
    hide Copied;
  }
}
