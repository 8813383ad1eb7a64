/** riscv-tests/mt/bh_matmul.c: core 0 multiplies the upper half of the rows forwards, core 1 the
    lower half backwards, in every loop; a single core does both. */
module Backward {
  import opened Arithmetic
  import opened Strided
  import opened Team
  import opened Accumulators

  // ---------- eight neighbouring cells ----------

  /** The eight cells at an address and the seven beside it. */
  function ReadEight(s: seq<int>, at: int, d: int): (v: Eight)
    requires d == 1 || d == -1
    requires 0 <= at < |s| && 0 <= at + 7 * d < |s|
  {
    Eight(s[at], s[at + d], s[at + 2 * d], s[at + 3 * d], s[at + 4 * d], s[at + 5 * d], s[at + 6 * d], s[at + 7 * d])
  }

  lemma ReadEightAt(v: View, j: int, i: int, d: int)
    requires d == 1 || d == -1
    requires v.Has(j, i) && v.Has(j, i + 7 * d)
    ensures ReadEight(v.data, v.base + j * v.ld + i, d) == EightAt(v, j, i, d)
  {
  }

  /** The eight updates of the body of a loop over k, which handles two inner indices at once. */
  function EightPlus(t: Eight, a0: int, u: Eight, a1: int, w: Eight): Eight {
    Eight(t.x0 + (a0 * u.x0 + a1 * w.x0), t.x1 + (a0 * u.x1 + a1 * w.x1),
          t.x2 + (a0 * u.x2 + a1 * w.x2), t.x3 + (a0 * u.x3 + a1 * w.x3),
          t.x4 + (a0 * u.x4 + a1 * w.x4), t.x5 + (a0 * u.x5 + a1 * w.x5),
          t.x6 + (a0 * u.x6 + a1 * w.x6), t.x7 + (a0 * u.x7 + a1 * w.x7))
  }

  lemma DotUp(a: View, b: View, i: int, j: int, lo: int, k: int)
    requires lo <= k
    ensures Dot(a, b, i, j, lo, k + 2) == Dot(a, b, i, j, lo, k)
        + (a.At(i, k) * b.At(k, j) + a.At(i, k + 1) * b.At(k + 1, j))
  {
    hide View.At;
    DotStep(a, b, i, j, lo, k);
    DotStep(a, b, i, j, lo, k + 1);
  }

  lemma DotDown(a: View, b: View, i: int, j: int, k: int, hi: int)
    requires k < hi
    ensures Dot(a, b, i, j, k - 1, hi) == Dot(a, b, i, j, k + 1, hi)
        + (a.At(i, k) * b.At(k, j) + a.At(i, k - 1) * b.At(k - 1, j))
  {
    hide View.At;
    DotSplit(a, b, i, j, k - 1, k + 1, hi);
    DotUp(a, b, i, j, k - 1, k - 1);
    assert Dot(a, b, i, j, k - 1, k - 1) == 0;
  }

  /** Forwards, two inner indices are added at the upper end of the range. */
  lemma EightUp(a: View, b: View, j: int, i: int, d: int, init: Eight, lo: int, k: int)
    requires lo <= k
    ensures EightPlus(EightAfter(a, b, j, i, d, init, lo, k), a.At(j, k), EightAt(b, k, i, d), a.At(j, k + 1),
                      EightAt(b, k + 1, i, d))
         == EightAfter(a, b, j, i, d, init, lo, k + 2)
  {
    hide Dot, View.At;
    DotUp(a, b, j, i, lo, k);
    DotUp(a, b, j, i + d, lo, k);
    DotUp(a, b, j, i + 2 * d, lo, k);
    DotUp(a, b, j, i + 3 * d, lo, k);
    DotUp(a, b, j, i + 4 * d, lo, k);
    DotUp(a, b, j, i + 5 * d, lo, k);
    DotUp(a, b, j, i + 6 * d, lo, k);
    DotUp(a, b, j, i + 7 * d, lo, k);
  }

  /** Backwards, at the lower end. */
  lemma EightDown(a: View, b: View, j: int, i: int, d: int, init: Eight, k: int, hi: int)
    requires k < hi
    ensures EightPlus(EightAfter(a, b, j, i, d, init, k + 1, hi), a.At(j, k), EightAt(b, k, i, d), a.At(j, k - 1),
                      EightAt(b, k - 1, i, d))
         == EightAfter(a, b, j, i, d, init, k - 1, hi)
  {
    hide Dot, View.At;
    DotDown(a, b, j, i, k, hi);
    DotDown(a, b, j, i + d, k, hi);
    DotDown(a, b, j, i + 2 * d, k, hi);
    DotDown(a, b, j, i + 3 * d, k, hi);
    DotDown(a, b, j, i + 4 * d, k, hi);
    DotDown(a, b, j, i + 5 * d, k, hi);
    DotDown(a, b, j, i + 6 * d, k, hi);
    DotDown(a, b, j, i + 7 * d, k, hi);
  }

  // ---------- storing eight cells ----------

  /** The n cells of row j from column i on, in direction d. */
  function Strip(j: int, i: int, d: int, n: int, lo: int, hi: int): Box {
    if d == 1 then Box(j, j + 1, i, i + n, lo, hi) else Box(j, j + 1, i - n + 1, i + 1, lo, hi)
  }

  /** Storing the next cell of a strip. */
  lemma StripGrows(s0: seq<int>, s1: seq<int>, a: View, b: View, ld: int, j: int, i: int, d: int, n: nat, lo: int,
                   hi: int, v: int)
    requires (d == 1 || d == -1) && 0 <= i < ld && 0 <= i + n * d < ld
    requires Adds(s0, s1, a, b, 0, ld, Strip(j, i, d, n, lo, hi))
    requires 0 <= j * ld + (i + n * d) < |s0|
    requires v == s0[j * ld + (i + n * d)] + Dot(a, b, j, i + n * d, lo, hi)
    ensures Adds(s0, s1[j * ld + (i + n * d) := v], a, b, 0, ld, Strip(j, i, d, n + 1, lo, hi))
  {
    hide Adds, Dot;
    AddsLength(s0, s1, a, b, ld, Strip(j, i, d, n, lo, hi));
    var s2 := s1[j * ld + (i + n * d) := v];
    var x := Strip(j, i, d, n + 1, lo, hi);
    AddsKeeps(s0, s1, a, b, 0, ld, Strip(j, i, d, n, lo, hi), j, i + n * d);
    AddsCell(s1, a, b, 0, ld, j, i + n * d, lo, hi, v);
    if d == 1 {
      assert n * d == n;
      AddsColumns(s0, s1, s2, a, b, 0, ld, x, i + n);
    } else {
      assert n * d == 0 - n;
      AddsColumns(s0, s1, s2, a, b, 0, ld, x, i - n + 1);
    }
  }

  lemma AddsLength(s0: seq<int>, s1: seq<int>, a: View, b: View, ld: int, x: Box)
    requires Adds(s0, s1, a, b, 0, ld, x)
    ensures |s0| == |s1|
  {
  }

  /** The eight cells are inside C. */
  predicate Room(length: nat, lda: nat, j: int, i: int, d: int) {
    && (d == 1 || d == -1) && 0 <= i < lda && 0 <= i + 7 * d < lda
    && 0 <= j * lda + i < length && 0 <= j * lda + i + 7 * d < length
  }

  /** v is what belongs into cell number n of a strip. */
  ghost predicate Belongs(s0: seq<int>, a: View, b: View, lda: nat, j: int, i: int, d: int, lo: int, hi: int, n: nat,
                          v: int) {
    && 0 <= j * lda + i + n * d < |s0|
    && v == s0[j * lda + i + n * d] + Dot(a, b, j, i + n * d, lo, hi)
  }

  lemma StripValues(s0: seq<int>, a: View, b: View, lda: nat, j: int, i: int, d: int, lo: int, hi: int, v: Eight)
    requires Room(|s0|, lda, j, i, d)
    requires v == EightAfter(a, b, j, i, d, EightAt(View(s0, 0, lda), j, i, d), lo, hi)
    ensures Belongs(s0, a, b, lda, j, i, d, lo, hi, 0, v.x0) && Belongs(s0, a, b, lda, j, i, d, lo, hi, 1, v.x1)
    ensures Belongs(s0, a, b, lda, j, i, d, lo, hi, 2, v.x2) && Belongs(s0, a, b, lda, j, i, d, lo, hi, 3, v.x3)
    ensures Belongs(s0, a, b, lda, j, i, d, lo, hi, 4, v.x4) && Belongs(s0, a, b, lda, j, i, d, lo, hi, 5, v.x5)
    ensures Belongs(s0, a, b, lda, j, i, d, lo, hi, 6, v.x6) && Belongs(s0, a, b, lda, j, i, d, lo, hi, 7, v.x7)
  {
    hide Dot;
  }

  /** Store number n of a strip. */
  method StoreNext(c: array<int>, ghost s0: seq<int>, ghost a: View, ghost b: View, lda: nat, j: int, i: int, d: int,
                   n: nat, ghost lo: int, ghost hi: int, v: int)
    requires n < 8 && Room(c.Length, lda, j, i, d) && |s0| == c.Length
    requires Adds(s0, c[..], a, b, 0, lda, Strip(j, i, d, n, lo, hi))
    requires Belongs(s0, a, b, lda, j, i, d, lo, hi, n, v)
    modifies c
    ensures Adds(s0, c[..], a, b, 0, lda, Strip(j, i, d, n + 1, lo, hi))
  {
    StripGrows(s0, c[..], a, b, lda, j, i, d, n, lo, hi, v);
    hide Adds, Dot, Strip;
    c[i + n * d + j * lda] := v;
  }

  method StoreFour(c: array<int>, ghost s0: seq<int>, ghost a: View, ghost b: View, lda: nat, j: int, i: int, d: int,
                   n: nat, ghost lo: int, ghost hi: int, x0: int, x1: int, x2: int, x3: int)
    requires n + 4 <= 8 && Room(c.Length, lda, j, i, d) && |s0| == c.Length
    requires Adds(s0, c[..], a, b, 0, lda, Strip(j, i, d, n, lo, hi))
    requires Belongs(s0, a, b, lda, j, i, d, lo, hi, n, x0) && Belongs(s0, a, b, lda, j, i, d, lo, hi, n + 1, x1)
    requires Belongs(s0, a, b, lda, j, i, d, lo, hi, n + 2, x2) && Belongs(s0, a, b, lda, j, i, d, lo, hi, n + 3, x3)
    modifies c
    ensures Adds(s0, c[..], a, b, 0, lda, Strip(j, i, d, n + 4, lo, hi))
  {
    hide *;
    StoreNext(c, s0, a, b, lda, j, i, d, n, lo, hi, x0);
    StoreNext(c, s0, a, b, lda, j, i, d, n + 1, lo, hi, x1);
    StoreNext(c, s0, a, b, lda, j, i, d, n + 2, lo, hi, x2);
    StoreNext(c, s0, a, b, lda, j, i, d, n + 3, lo, hi, x3);
  }

  /** The eight stores at the end of the loop over i. */
  method StoreEight(c: array<int>, ghost a: View, ghost b: View, lda: nat, j: int, i: int, d: int, ghost lo: int,
                    ghost hi: int, v: Eight)
    requires Room(c.Length, lda, j, i, d)
    requires v == EightAfter(a, b, j, i, d, EightAt(View(c[..], 0, lda), j, i, d), lo, hi)
    modifies c
    ensures Adds(old(c[..]), c[..], a, b, 0, lda, Strip(j, i, d, 8, lo, hi))
  {
    ghost var s0 := c[..];
    AddsNothing(s0, a, b, 0, lda, Strip(j, i, d, 0, lo, hi));
    StripValues(s0, a, b, lda, j, i, d, lo, hi, v);
    hide *;
    StoreFour(c, s0, a, b, lda, j, i, d, 0, lo, hi, v.x0, v.x1, v.x2, v.x3);
    StoreFour(c, s0, a, b, lda, j, i, d, 4, lo, hi, v.x4, v.x5, v.x6, v.x7);
  }

  // ---------- the tiles ----------

  /** What a tile needs of its operands, for the inner indices lo <= k < hi. */
  ghost predicate TileReads(a: View, b: View, j: int, i: int, d: int, lo: int, hi: int) {
    && (d == 1 || d == -1) && a.base == b.base == 0
    && forall k :: lo <= k < hi ==> RowReads(a, b, j, i, d, k)
  }

  predicate RowReads(a: View, b: View, j: int, i: int, d: int, k: int) {
    a.Has(j, k) && b.Has(k, i) && b.Has(k, i + 7 * d)
  }

  lemma TileFits(lda: nat, a: View, b: View, length: nat, j: int, i: int, d: int, lo: int, hi: int)
    requires Square(lda, a, b, length) && 0 <= j < lda && 0 <= lo && hi <= lda
    requires (d == 1 || d == -1) && 0 <= i < lda && 0 <= i + 7 * d < lda
    ensures TileReads(a, b, j, i, d, lo, hi) && Room(length, lda, j, i, d)
  {
    ConformsAt(lda, lda, lda, a, b, length, 0, lda, j, i);
    ConformsAt(lda, lda, lda, a, b, length, 0, lda, j, i + 7 * d);
    forall k | lo <= k < hi
      ensures RowReads(a, b, j, i, d, k)
    {
      FitsAt(a, lda, lda, j, k);
      FitsAt(b, lda, lda, k, i);
      FitsAt(b, lda, lda, k, i + 7 * d);
    }
  }

  /** m*lda/2, where the loops over k begin and end. */
  function Half(lda: nat, m: nat): int { m * lda / 2 }

  /** m*lda*lda/2, where the forward half begins in B. */
  function HalfOfB(lda: nat, m: nat): int { m * lda * lda / 2 }

  lemma Halves(lda: nat, q: nat)
    requires lda == 8 * q
    ensures Half(lda, 0) == 0 && Half(lda, 1) == 4 * q && Half(lda, 2) == 8 * q
    ensures HalfOfB(lda, 0) == 0 * lda && HalfOfB(lda, 1) == (4 * q) * lda
  {
    assert 1 * lda * lda == 2 * ((4 * q) * lda);
  }

  /** The row k of B, read from its address. */
  method ReadRow(b: View, k: int, i: int, d: int, at: int) returns (v: Eight)
    requires (d == 1 || d == -1) && b.base == 0 && b.Has(k, i) && b.Has(k, i + 7 * d) && at == k * b.ld + i
    ensures v == EightAt(b, k, i, d)
  {
    ReadEightAt(b, k, i, d);
    v := ReadEight(b.data, at, d);
  }

  /** The body of the loops over k, for the inner indices k and k'. */
  method Step(a: View, b: View, j: int, i: int, d: int, t: Eight, k: int, at: int, k': int, at': int)
      returns (t': Eight)
    requires (d == 1 || d == -1) && b.base == 0 && RowReads(a, b, j, i, d, k) && RowReads(a, b, j, i, d, k')
    requires at == k * b.ld + i && at' == k' * b.ld + i
    ensures t' == EightPlus(t, a.At(j, k), EightAt(b, k, i, d), a.At(j, k'), EightAt(b, k', i, d))
  {
    hide EightPlus, EightAt;
    var u := ReadRow(b, k, i, d, at);
    var w := ReadRow(b, k', i, d, at');
    t' := EightPlus(t, a.Get(j, k), u, a.Get(j, k'), w);
  }

  /** The loop over k of the forward half: iB0 and iB1 step down B two rows at a time. */
  method ForwardSums(lda: nat, a: View, b: View, m: nat, j: int, i: int, init: Eight, ghost q: nat) returns (t: Eight)
    requires m < 2 && lda == 8 * q && a.ld == b.ld == lda
    requires TileReads(a, b, j, i, 1, Half(lda, m), Half(lda, m + 1))
    ensures t == EightAfter(a, b, j, i, 1, init, Half(lda, m), Half(lda, m + 1))
  {
    hide EightAfter, EightPlus, EightAt, RowReads, Half, HalfOfB, View.At, View.Has;
    Halves(lda, q);
    t := init;
    var iB0 := HalfOfB(lda, m) + i;
    var iB1 := iB0 + lda;
    var k := Half(lda, m);
    ghost var lo, u := k, 0;
    EightStart(a, b, j, i, 1, init, lo);
    MulDistributes(k, 1, lda);
    while k < Half(lda, m + 1)
      invariant 0 <= u <= 2 * q && k == lo + 2 * u
      invariant iB0 == k * lda + i && iB1 == (k + 1) * lda + i
      invariant t == EightAfter(a, b, j, i, 1, init, lo, k)
    {
      EightUp(a, b, j, i, 1, init, lo, k);
      t := Step(a, b, j, i, 1, t, k, iB0, k + 1, iB1);
      MulDistributes(k, 2, lda);
      MulDistributes(k + 1, 2, lda);
      iB0 := iB0 + 2 * lda;
      iB1 := iB1 + 2 * lda;
      k := k + 2;
      u := u + 1;
    }
  }

  /** The loop over k of the backward half: the rows of B from the last to the first. */
  method BackwardSums(lda: nat, a: View, b: View, m: nat, j: int, i: int, init: Eight, ghost q: nat) returns (t: Eight)
    requires 1 <= m <= 2 && lda == 8 * q && a.ld == b.ld == lda
    requires TileReads(a, b, j, i, -1, Half(lda, m - 1), Half(lda, m))
    ensures t == EightAfter(a, b, j, i, -1, init, Half(lda, m - 1), Half(lda, m))
  {
    hide EightAfter, EightPlus, EightAt, RowReads, Half, View.At, View.Has;
    Halves(lda, q);
    t := init;
    var k := Half(lda, m) - 1;
    ghost var hi, u := Half(lda, m), 0;
    EightStart(a, b, j, i, -1, init, hi);
    while k >= Half(lda, m - 1)
      invariant 0 <= u <= 2 * q && k + 1 == hi - 2 * u
      invariant t == EightAfter(a, b, j, i, -1, init, k + 1, hi)
    {
      EightDown(a, b, j, i, -1, init, k, hi);
      t := Step(a, b, j, i, -1, t, k, k * lda + i, k - 1, (k - 1) * lda + i);
      k := k - 2;
      u := u + 1;
    }
  }

  method LoadEight(c: array<int>, lda: nat, j: int, i: int, d: int) returns (v: Eight)
    requires Room(c.Length, lda, j, i, d)
    ensures v == EightAt(View(c[..], 0, lda), j, i, d)
  {
    ReadEightAt(View(c[..], 0, lda), j, i, d);
    v := ReadEight(c[..], i + j * lda, d);
  }

  method ForwardTile(lda: nat, a: View, b: View, c: array<int>, m: nat, j: int, i: int, ghost q: nat)
    requires Square(lda, a, b, c.Length) && m < 2 && lda == 8 * q && 0 <= j < lda && 0 <= i && i + 8 <= lda
    modifies c
    ensures Adds(old(c[..]), c[..], a, b, 0, lda, Box(j, j + 1, i, i + 8, Half(lda, m), Half(lda, m + 1)))
  {
    Halves(lda, q);
    hide Half, EightAt, EightAfter, Room, TileReads, Adds;
    TileFits(lda, a, b, c.Length, j, i, 1, Half(lda, m), Half(lda, m + 1));
    var init := LoadEight(c, lda, j, i, 1);
    var t := ForwardSums(lda, a, b, m, j, i, init, q);
    StoreEight(c, a, b, lda, j, i, 1, Half(lda, m), Half(lda, m + 1), t);
  }

  method BackwardTile(lda: nat, a: View, b: View, c: array<int>, m: nat, j: int, i: int, ghost q: nat)
    requires Square(lda, a, b, c.Length) && 1 <= m <= 2 && lda == 8 * q && 0 <= j < lda && 7 <= i < lda
    modifies c
    ensures Adds(old(c[..]), c[..], a, b, 0, lda, Box(j, j + 1, i - 7, i + 1, Half(lda, m - 1), Half(lda, m)))
  {
    Halves(lda, q);
    hide Half, EightAt, EightAfter, Room, TileReads, Adds;
    TileFits(lda, a, b, c.Length, j, i, -1, Half(lda, m - 1), Half(lda, m));
    var init := LoadEight(c, lda, j, i, -1);
    var t := BackwardSums(lda, a, b, m, j, i, init, q);
    StoreEight(c, a, b, lda, j, i, -1, Half(lda, m - 1), Half(lda, m), t);
  }

  // ---------- the halves ----------

  /** The loops over j and i of the forward half, for one half of the inner index. */
  method ForwardSlice(lda: nat, a: View, b: View, c: array<int>, m: nat, ghost q: nat)
    requires Square(lda, a, b, c.Length) && m < 2 && lda == 8 * q
    modifies c
    ensures Adds(old(c[..]), c[..], a, b, 0, lda, Box(0, lda / 2, 0, lda, Half(lda, m), Half(lda, m + 1)))
  {
    hide Adds, Square, Half;
    ghost var x := Box(0, lda / 2, 0, lda, Half(lda, m), Half(lda, m + 1));
    AddsNothing(c[..], a, b, 0, lda, x.(i1 := 0));
    var j := 0;
    while j < lda / 2
      invariant 0 <= j <= lda / 2
      invariant Adds(old(c[..]), c[..], a, b, 0, lda, x.(i1 := j))
    {
      ghost var rowStart := c[..];
      ghost var row := x.(i0 := j, i1 := j + 1);
      AddsNothing(c[..], a, b, 0, lda, row.(j1 := 0));
      var i := 0;
      ghost var u := 0;
      while i < lda
        invariant 0 <= i <= lda && i == 8 * u
        invariant Adds(rowStart, c[..], a, b, 0, lda, row.(j1 := i))
      {
        ghost var tileStart := c[..];
        ForwardTile(lda, a, b, c, m, j, i, q);
        AddsColumns(rowStart, tileStart, c[..], a, b, 0, lda, row.(j1 := i + 8), i);
        i := i + 8;
        u := u + 1;
      }
      AddsRows(old(c[..]), rowStart, c[..], a, b, 0, lda, x.(i1 := j + 1), j);
      j := j + 1;
    }
  }

  /** The loops over j and i of the backward half: from the last row and the last column. */
  method BackwardSlice(lda: nat, a: View, b: View, c: array<int>, m: nat, ghost q: nat)
    requires Square(lda, a, b, c.Length) && 1 <= m <= 2 && lda == 8 * q
    modifies c
    ensures Adds(old(c[..]), c[..], a, b, 0, lda, Box(lda / 2, lda, 0, lda, Half(lda, m - 1), Half(lda, m)))
  {
    hide Adds, Square, Half;
    ghost var x := Box(lda / 2, lda, 0, lda, Half(lda, m - 1), Half(lda, m));
    AddsNothing(c[..], a, b, 0, lda, x.(i0 := lda));
    var j := lda - 1;
    while j >= lda / 2
      invariant lda / 2 <= j + 1 <= lda
      invariant Adds(old(c[..]), c[..], a, b, 0, lda, x.(i0 := j + 1))
    {
      ghost var rowStart := c[..];
      ghost var row := x.(i0 := j, i1 := j + 1);
      AddsNothing(c[..], a, b, 0, lda, row.(j0 := lda));
      var i := lda - 1;
      ghost var u := q;
      while i >= 0
        invariant 0 <= i + 1 <= lda && i + 1 == 8 * u
        invariant Adds(rowStart, c[..], a, b, 0, lda, row.(j0 := i + 1))
      {
        ghost var tileStart := c[..];
        BackwardTile(lda, a, b, c, m, j, i, q);
        AddsColumns(rowStart, tileStart, c[..], a, b, 0, lda, row.(j0 := i - 7), i + 1);
        i := i - 8;
        u := u - 1;
      }
      AddsRows(old(c[..]), rowStart, c[..], a, b, 0, lda, x.(i0 := j), j + 1);
      j := j - 1;
    }
  }

  // ---------- one core and all cores ----------

  /** The rows that a core computes. */
  function BhRows(coreid: nat, ncores: nat, lda: nat): set<int> {
    if coreid > 1 then {}
    else
      (if coreid == 0 then Rows(0, lda / 2) else {}) + (if coreid == 1 || ncores == 1 then Rows(lda / 2, lda) else {})
  }

  /** bh_matmul.c matmul, one core: C += A*B on the rows of that core. */
  method BhMatmul(coreid: nat, ncores: nat, lda: nat, a: View, b: View, c: array<int>)
    requires coreid < ncores && lda % 8 == 0 && Square(lda, a, b, c.Length)
    modifies c
    ensures AddsInto(old(c[..]), c[..], a, b, lda, BhRows(coreid, ncores, lda), lda, lda)
  {
    IntoNothing(c[..], a, b, lda, lda, lda);
    if coreid > 1 {
      return;
    }
    hide AddsInto;
    ghost var done: set<int> := {};
    if coreid == 0 {
      ForwardHalf(lda, a, b, c);
      done := Rows(0, lda / 2);
    }
    if coreid == 1 || ncores == 1 {
      ghost var before := c[..];
      BackwardHalf(lda, a, b, c);
      IntoBoth(old(c[..]), before, c[..], a, b, lda, done, Rows(lda / 2, lda), lda, lda);
    }
  }

  method ForwardHalf(lda: nat, a: View, b: View, c: array<int>)
    requires lda % 8 == 0 && Square(lda, a, b, c.Length)
    modifies c
    ensures AddsInto(old(c[..]), c[..], a, b, lda, Rows(0, lda / 2), lda, lda)
  {
    ghost var q := lda / 8;
    Halves(lda, q);
    hide Adds, AddsInto, Half, Square;
    ghost var x := Box(0, lda / 2, 0, lda, 0, lda);
    AddsNothing(c[..], a, b, 0, lda, x.(k1 := Half(lda, 0)));
    var m := 0;
    while m < 2
      invariant 0 <= m <= 2
      invariant Adds(old(c[..]), c[..], a, b, 0, lda, x.(k1 := Half(lda, m)))
    {
      ghost var before := c[..];
      ForwardSlice(lda, a, b, c, m, q);
      AddsSlices(old(c[..]), before, c[..], a, b, 0, lda, x.(k1 := Half(lda, m + 1)), Half(lda, m));
      m := m + 1;
    }
    IntoBox(old(c[..]), c[..], a, b, lda, 0, lda / 2, lda, lda);
  }

  method BackwardHalf(lda: nat, a: View, b: View, c: array<int>)
    requires lda % 8 == 0 && Square(lda, a, b, c.Length)
    modifies c
    ensures AddsInto(old(c[..]), c[..], a, b, lda, Rows(lda / 2, lda), lda, lda)
  {
    ghost var q := lda / 8;
    Halves(lda, q);
    hide Adds, AddsInto, Half, Square;
    ghost var x := Box(lda / 2, lda, 0, lda, 0, lda);
    AddsNothing(c[..], a, b, 0, lda, x.(k0 := Half(lda, 2)));
    var m := 2;
    while m > 0
      invariant 0 <= m <= 2
      invariant Adds(old(c[..]), c[..], a, b, 0, lda, x.(k0 := Half(lda, m)))
    {
      ghost var before := c[..];
      BackwardSlice(lda, a, b, c, m, q);
      AddsSlices(old(c[..]), before, c[..], a, b, 0, lda, x.(k0 := Half(lda, m - 1)), Half(lda, m));
      m := m - 1;
    }
    IntoBox(old(c[..]), c[..], a, b, lda, lda / 2, lda, lda, lda);
  }

  /** The rows of all the cores. */
  function BhShares(ncores: nat, lda: nat): seq<set<int>>
    requires 0 < ncores
  {
    seq(ncores, core requires 0 <= core < ncores => BhRows(core, ncores, lda))
  }

  /** Every row has exactly one owner. */
  lemma BhPartition(ncores: nat, lda: nat)
    requires 0 < ncores
    ensures Partition(BhShares(ncores, lda), lda)
  {
    var rows := BhShares(ncores, lda);
    forall r
      ensures 0 <= r < lda <==> Owned(rows, r)
    {
      if 0 <= r < lda {
        assert r in rows[if r < lda / 2 || ncores == 1 then 0 else 1];
      }
    }
  }

  /** All cores, one after the other in any order, leave C += A*B, however many there are. */
  method BhTeam(order: seq<nat>, ncores: nat, lda: nat, a: View, b: View, c: array<int>)
    requires 0 < ncores && OrderOf(order, ncores) && lda % 8 == 0 && Square(lda, a, b, c.Length)
    modifies c
    ensures AddsProduct(old(c[..]), c[..], a, b, 0, lda, lda, lda, lda)
  {
    hide AddsInto, Square;
    BhPartition(ncores, lda);
    ghost var rows := BhShares(ncores, lda);
    ghost var states := [c[..]];
    for k := 0 to ncores
      invariant |states| == k + 1 && states[0] == old(c[..]) && states[k] == c[..]
      invariant forall i :: 0 <= i < k ==> AddsInto(states[i], states[i + 1], a, b, lda, rows[order[i]], lda, lda)
    {
      BhMatmul(order[k], ncores, lda, a, b, c);
      states := states + [c[..]];
    }
    TeamAdds(states, order, rows, a, b, lda, lda, lda, lda);
  }
}
