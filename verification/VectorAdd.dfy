/** riscv-tests/mt: the vector additions vvadd0, vvadd1 and vvadd3, and how they share the indices
    among the cores.  z may be the same array as x or y. */
module VectorAdd {
  import opened Arithmetic
  import opened Strided
  import opened Team

  /** z has the sums at exactly these indices. */
  ghost predicate Added(x: seq<int>, y: seq<int>, before: seq<int>, after: seq<int>, mine: set<int>) {
    && |after| == |before|
    && (forall q :: q in mine && 0 <= q < |after| ==> 0 <= q < |x| && 0 <= q < |y| && after[q] == x[q] + y[q])
    && forall q :: 0 <= q < |after| && q !in mine ==> after[q] == before[q]
  }

  /** The next cell can be added: x and y still have their old values there. */
  method AddOne(x: array<int>, y: array<int>, z: array<int>, q: int, ghost x0: seq<int>, ghost y0: seq<int>,
                ghost z0: seq<int>, ghost mine: set<int>)
    requires 0 <= q < x.Length && q < y.Length && q < z.Length && q !in mine
    requires Intact(x, y, z, x0, y0, z0, mine)
    modifies z
    ensures Intact(x, y, z, x0, y0, z0, mine + {q})
  {
    z[q] := x[q] + y[q];
  }

  /** So far exactly the indices in mine have been added; x and y, unless they are z, are as before. */
  ghost predicate Intact(x: array<int>, y: array<int>, z: array<int>, x0: seq<int>, y0: seq<int>, z0: seq<int>,
                         mine: set<int>)
    reads x, y, z
  {
    && |x0| == x.Length && |y0| == y.Length
    && Added(x0, y0, z0, z[..], mine)
    && (if x == z then x0 == z0 else x[..] == x0)
    && (if y == z then y0 == z0 else y[..] == y0)
  }

  // ---------- vvadd3: Duff's device ----------

  /** The do-while loop entered in the middle: the first pass runs the cases from count % 8 down to 1,
      or all eight, and every later pass all eight. */
  method Duff(x: array<int>, y: array<int>, z: array<int>, start: nat, count: nat)
    requires count >= 1 && start + count <= x.Length && start + count <= y.Length && start + count <= z.Length
    modifies z
    ensures Added(old(x[..]), old(y[..]), old(z[..]), z[..], Rows(start, start + count))
  {
    hide Added, Intact;
    ghost var x0, y0, z0 := x[..], y[..], z[..];
    var to := start;
    var c := (count + 7) / 8;
    var cases := if count % 8 == 0 then 8 else count % 8;
    IntactStart(x, y, z, start);
    while true
      invariant 1 <= cases <= 8 && c >= 1 && start <= to && to + 8 * (c - 1) + cases == start + count
      invariant Intact(x, y, z, x0, y0, z0, Rows(start, to))
      decreases c
    {
      while cases > 0
        invariant 0 <= cases <= 8 && start <= to && to + 8 * (c - 1) + cases == start + count
        invariant Intact(x, y, z, x0, y0, z0, Rows(start, to))
      {
        AddOne(x, y, z, to, x0, y0, z0, Rows(start, to));
        assert Rows(start, to) + {to} == Rows(start, to + 1);
        to, cases := to + 1, cases - 1;
      }
      c := c - 1;
      if c == 0 {
        break;
      }
      cases := 8;
    }
    IntactEnd(x, y, z, x0, y0, z0, Rows(start, start + count));
  }

  lemma IntactStart(x: array<int>, y: array<int>, z: array<int>, start: nat)
    ensures Intact(x, y, z, x[..], y[..], z[..], Rows(start, start)) && Intact(x, y, z, x[..], y[..], z[..], {})
  {
  }

  lemma IntactEnd(x: array<int>, y: array<int>, z: array<int>, x0: seq<int>, y0: seq<int>, z0: seq<int>, mine: set<int>)
    requires Intact(x, y, z, x0, y0, z0, mine)
    ensures Added(x0, y0, z0, z[..], mine)
  {
  }

  /** vvadd3.c vvadd, one core. */
  method Vvadd3(coreid: nat, ncores: nat, n: nat, x: array<int>, y: array<int>, z: array<int>)
    requires coreid < ncores <= n && n <= x.Length && n <= y.Length && n <= z.Length
    modifies z
    ensures Added(old(x[..]), old(y[..]), old(z[..]), z[..], Slice(coreid, n / ncores))
  {
    SliceFits(coreid, ncores, n);
    Quotient(n, ncores);
    Duff(x, y, z, coreid * (n / ncores), n / ncores);
  }

  function Slice(coreid: nat, k: nat): set<int> { Rows(coreid * k, coreid * k + k) }

  // ---------- who adds what ----------

  /** Core number `core`, and no other, adds index q. */
  predicate OnlyOwner(sets: seq<set<int>>, q: int, core: nat) {
    core < |sets| && q in sets[core] && forall other :: 0 <= other < |sets| && other != core ==> q !in sets[other]
  }

  /** Every index below n is added by exactly one core. */
  ghost predicate SharedOut(sets: seq<set<int>>, n: nat) {
    forall q :: 0 <= q < n ==> HasOwner(sets, q)
  }

  ghost predicate HasOwner(sets: seq<set<int>>, q: int) { exists core :: OnlyOwner(sets, q, core) }

  function Slices(ncores: nat, k: nat): seq<set<int>> { seq(ncores, core requires core >= 0 => Slice(core, k)) }

  /** An index is in the slice whose number is its quotient. */
  lemma InSlice(core: nat, k: nat, q: nat)
    requires k > 0
    ensures q in Slice(core, k) <==> core == q / k
  {
    Quotient(q, k);
    if q in Slice(core, k) {
      QuotientIs(q, k, core);
    }
  }

  lemma BelowProduct(q: nat, k: nat, ncores: nat)
    requires k > 0
    ensures q < ncores * k <==> q / k < ncores
  {
    Quotient(q, k);
    if q / k < ncores {
      MulMonotone(q / k + 1, ncores, k);
      MulDistributes(q / k, 1, k);
    } else {
      MulMonotone(ncores, q / k, k);
    }
  }

  lemma SliceOwner(ncores: nat, k: nat, q: nat)
    requires k > 0
    ensures q < ncores * k ==> OnlyOwner(Slices(ncores, k), q, q / k)
    ensures q >= ncores * k ==> forall core :: 0 <= core < ncores ==> q !in Slices(ncores, k)[core]
  {
    BelowProduct(q, k, ncores);
    forall core: nat | core < ncores
      ensures q in Slices(ncores, k)[core] <==> core == q / k
    {
      InSlice(core, k, q);
    }
  }

  /** vvadd3 adds every element exactly once exactly when the cores divide the length. */
  lemma Vvadd3Covers(ncores: nat, n: nat)
    requires 0 < ncores <= n
    ensures SharedOut(Slices(ncores, n / ncores), n) <==> n % ncores == 0
  {
    Quotient(n, ncores);
    var k := n / ncores;
    if n % ncores == 0 {
      forall q: nat | q < n
        ensures HasOwner(Slices(ncores, k), q)
      {
        SliceOwner(ncores, k, q);
      }
    } else {
      SliceOwner(ncores, k, n - 1);
      assert !HasOwner(Slices(ncores, k), n - 1);
    }
  }

  // ---------- vvadd0 ----------

  /** The indices lo <= q < hi that fall to the core when they are dealt out one by one. */
  function Turns(lo: nat, hi: nat, core: nat, ncores: nat): set<int>
    requires ncores > 0
  {
    set q: int | lo <= q < hi && InTurn(lo, q, core, ncores)
  }

  predicate InTurn(lo: int, q: int, core: nat, ncores: nat)
    requires ncores > 0
  {
    (q - lo) % ncores == core
  }

  lemma NextTurn(lo: nat, hi: nat, core: nat, ncores: nat, t: nat, i: nat)
    requires core < ncores && i == lo + core + t * ncores && i < hi
    ensures Turns(lo, if i + ncores < hi then i + ncores else hi, core, ncores) == Turns(lo, i, core, ncores) + {i}
    ensures i !in Turns(lo, i, core, ncores)
  {
    forall q: int | i <= q < i + ncores
      ensures InTurn(lo, q, core, ncores) <==> q == i
    {
      OwnBlock(core, ncores, t, q - lo);
    }
  }

  lemma FirstTurn(lo: nat, hi: nat, core: nat, ncores: nat)
    requires core < ncores && hi <= lo + core
    ensures Turns(lo, hi, core, ncores) == {}
  {
    forall q: int | lo <= q < hi
      ensures !InTurn(lo, q, core, ncores)
    {
      RemainderIs(q - lo, ncores, 0, q - lo);
    }
  }

  /** Where the left-over indices begin. */
  function LeftStart(n: nat, k: nat): (lo: nat)
    requires k > 0
    ensures lo <= n && lo == n - n % k
  {
    Quotient(n, k);
    assert k * (n / k) >= 0;
    n - n % k
  }

  /** The indices that vvadd0 gives to a core: a slice, and its turns among those left over. */
  function Vvadd0Mine(core: nat, ncores: nat, n: nat): set<int>
    requires 0 < ncores <= n
  {
    Quotient(n, ncores);
    Slice(core, n / ncores) + Turns(LeftStart(n, n / ncores), n, core, ncores)
  }

  /** The remainder by the slice length is that of what the slices leave. */
  lemma RemainderOfRest(n: nat, ncores: nat, k: nat, r: nat)
    requires k > 0 && n == ncores * k + r
    ensures n % k == r % k && r % k <= r && (r < k <==> r % k == r)
  {
    Quotient(r, k);
    MulDistributes(ncores, r / k, k);
    RemainderIs(n, k, ncores + r / k, r % k);
  }

  /** What vvadd0 takes for left over, n % (n / ncores), is never more than what the slices leave. */
  lemma LeftOver(n: nat, ncores: nat)
    requires 0 < ncores <= n
    ensures var k := n / ncores;
            && k >= 1 && 0 <= n % k < k && ncores * k <= n - n % k
            && (n % k == n % ncores <==> n % ncores < k)
            && n % k <= n % ncores && n - ncores * k == n % ncores
  {
    Quotient(n, ncores);
    var k := n / ncores;
    RemainderOfRest(n, ncores, k, n % ncores);
    Quotient(n, k);
  }

  /** vvadd0.c vvadd, one core. */
  method Vvadd0(coreid: nat, ncores: nat, n: nat, x: array<int>, y: array<int>, z: array<int>)
    requires coreid < ncores <= n && n <= x.Length && n <= y.Length && n <= z.Length
    modifies z
    ensures Added(old(x[..]), old(y[..]), old(z[..]), z[..], Vvadd0Mine(coreid, ncores, n))
  {
    SliceFits(coreid, ncores, n);
    LeftOver(n, ncores);
    MulMonotone(coreid + 1, ncores, n / ncores);
    hide Added, Intact, Turns;
    ghost var x0, y0, z0 := x[..], y[..], z[..];
    var k := n / ncores;
    var leftover := n % k;
    AddSlice(coreid * k, (coreid + 1) * k, x, y, z);
    AddTurns(coreid, ncores, n, n - leftover, x, y, z, x0, y0, z0, Slice(coreid, k));
    IntactEnd(x, y, z, x0, y0, z0, Vvadd0Mine(coreid, ncores, n));
  }

  /** The first loop of vvadd0. */
  method AddSlice(start: nat, end: nat, x: array<int>, y: array<int>, z: array<int>)
    requires start <= end && end <= x.Length && end <= y.Length && end <= z.Length
    modifies z
    ensures Intact(x, y, z, old(x[..]), old(y[..]), old(z[..]), Rows(start, end))
  {
    hide Added, Intact;
    ghost var x0, y0, z0 := x[..], y[..], z[..];
    var i := start;
    IntactStart(x, y, z, start);
    while i < end
      invariant start <= i <= end
      invariant Intact(x, y, z, x0, y0, z0, Rows(start, i))
    {
      AddOne(x, y, z, i, x0, y0, z0, Rows(start, i));
      assert Rows(start, i) + {i} == Rows(start, i + 1);
      i := i + 1;
    }
  }

  /** The second loop of vvadd0. */
  method AddTurns(coreid: nat, ncores: nat, n: nat, lo: nat, x: array<int>, y: array<int>, z: array<int>,
                  ghost x0: seq<int>, ghost y0: seq<int>, ghost z0: seq<int>, ghost mine: set<int>)
    requires coreid < ncores && n <= x.Length && n <= y.Length && n <= z.Length && lo <= n
    requires forall q :: q in mine ==> q < lo
    requires Intact(x, y, z, x0, y0, z0, mine)
    modifies z
    ensures Intact(x, y, z, x0, y0, z0, mine + Turns(lo, n, coreid, ncores))
  {
    hide Intact, Turns;
    var i := lo + coreid;
    ghost var t := 0;
    FirstTurn(lo, if i < n then i else n, coreid, ncores);
    assert mine + {} == mine;
    while i < n
      invariant 0 <= t && lo <= i && i == lo + coreid + t * ncores
      invariant Intact(x, y, z, x0, y0, z0, mine + Turns(lo, if i < n then i else n, coreid, ncores))
    {
      NextTurn(lo, n, coreid, ncores, t, i);
      AddOne(x, y, z, i, x0, y0, z0, mine + Turns(lo, i, coreid, ncores));
      assert mine + Turns(lo, i, coreid, ncores) + {i} == mine + (Turns(lo, i, coreid, ncores) + {i});
      MulDistributes(t, 1, ncores);
      i := i + ncores;
      t := t + 1;
    }
  }

  function Vvadd0Sets(ncores: nat, n: nat): seq<set<int>>
    requires 0 < ncores <= n
  {
    seq(ncores, core requires core >= 0 => Vvadd0Mine(core, ncores, n))
  }

  /** Index by index: vvadd0 adds the slices and the left-over indices exactly once, and nothing of
      what lies between them. */
  lemma Vvadd0Owner(ncores: nat, n: nat, q: nat)
    requires 0 < ncores <= n && q < n
    ensures var sets := Vvadd0Sets(ncores, n);
            var k := n / ncores;
            if ncores * k <= q < n - n % k then !HasOwner(sets, q) else HasOwner(sets, q)
  {
    LeftOver(n, ncores);
    var k := n / ncores;
    var lo := n - n % k;
    SliceOwner(ncores, k, q);
    Vvadd0Parts(ncores, n, k, lo, q);
  }

  lemma Vvadd0Parts(ncores: nat, n: nat, k: nat, lo: nat, q: nat)
    requires 0 < ncores <= n && q < n && k == n / ncores && k >= 1 && lo == n - n % k && ncores * k <= lo
    requires q < ncores * k ==> OnlyOwner(Slices(ncores, k), q, q / k)
    requires q >= ncores * k ==> forall core :: 0 <= core < ncores ==> q !in Slices(ncores, k)[core]
    ensures if ncores * k <= q < lo then !HasOwner(Vvadd0Sets(ncores, n), q) else HasOwner(Vvadd0Sets(ncores, n), q)
  {
    hide Slice;
    var sets := Vvadd0Sets(ncores, n);
    forall core: nat | core < ncores
      ensures q in sets[core] <==> q in Slices(ncores, k)[core] || (lo <= q && InTurn(lo, q, core, ncores))
    {
    }
    if q < ncores * k {
      assert OnlyOwner(sets, q, q / k);
    } else if q >= lo {
      assert InTurn(lo, q, (q - lo) % ncores, ncores);
      assert OnlyOwner(sets, q, (q - lo) % ncores);
    }
  }

  /** vvadd0 adds every element exactly once exactly when the remainder of the length is smaller than
      the slices. */
  lemma Vvadd0Covers(ncores: nat, n: nat)
    requires 0 < ncores <= n
    ensures SharedOut(Vvadd0Sets(ncores, n), n) <==> n % ncores < n / ncores
  {
    LeftOver(n, ncores);
    var k := n / ncores;
    if n % ncores < k {
      forall q: nat | q < n
        ensures HasOwner(Vvadd0Sets(ncores, n), q)
      {
        Vvadd0Owner(ncores, n, q);
      }
    } else {
      Vvadd0Owner(ncores, n, ncores * k);
    }
  }

  /** In particular when the length is at least the square of the number of cores. */
  lemma LongVectorsAreCovered(ncores: nat, n: nat)
    requires 0 < ncores && ncores * ncores <= n
    ensures ncores <= n && SharedOut(Vvadd0Sets(ncores, n), n)
  {
    MulMonotone(1, ncores, ncores);
    Quotient(n, ncores);
    if n / ncores < ncores {
      MulMonotone(n / ncores + 1, ncores, ncores);
      MulDistributes(n / ncores, 1, ncores);
    }
    Vvadd0Covers(ncores, n);
  }

  // ---------- vvadd1 ----------

  /** The core's blocks of four below hi: block number modulo ncores. */
  function Fours(core: nat, ncores: nat, hi: nat): set<int>
    requires ncores > 0
  {
    set q: int | 0 <= q < hi && InFours(q, core, ncores)
  }

  predicate InFours(q: int, core: nat, ncores: nat)
    requires ncores > 0
  {
    q / 4 % ncores == core
  }

  method AddFour(x: array<int>, y: array<int>, z: array<int>, q: nat, ghost x0: seq<int>, ghost y0: seq<int>,
                 ghost z0: seq<int>, ghost mine: set<int>)
    requires q + 4 <= x.Length && q + 4 <= y.Length && q + 4 <= z.Length && mine !! Rows(q, q + 4)
    requires Intact(x, y, z, x0, y0, z0, mine)
    modifies z
    ensures Intact(x, y, z, x0, y0, z0, mine + Rows(q, q + 4))
  {
    hide Intact;
    assert {q, q + 1, q + 2, q + 3} == Rows(q, q + 4);
    AddOne(x, y, z, q, x0, y0, z0, mine);
    AddOne(x, y, z, q + 1, x0, y0, z0, mine + {q});
    AddOne(x, y, z, q + 2, x0, y0, z0, mine + {q} + {q + 1});
    AddOne(x, y, z, q + 3, x0, y0, z0, mine + {q} + {q + 1} + {q + 2});
    assert mine + {q} + {q + 1} + {q + 2} + {q + 3} == mine + Rows(q, q + 4);
  }

  lemma NextFours(core: nat, ncores: nat, b: nat, t: nat)
    requires core < ncores && b == core + t * ncores
    ensures Fours(core, ncores, 4 * (b - core + ncores)) == Fours(core, ncores, 4 * (b - core)) + Rows(4 * b, 4 * b + 4)
    ensures Fours(core, ncores, 4 * (b - core)) !! Rows(4 * b, 4 * b + 4)
  {
    forall q: int | 4 * (b - core) <= q < 4 * (b - core + ncores)
      ensures InFours(q, core, ncores) <==> Between(4 * b, q, 4 * b + 4)
    {
      BlockTurn(core, ncores, t, q / 4);
    }
  }

  /** Of the ncores blocks of one round, only one is the core's. */
  lemma BlockTurn(core: nat, ncores: nat, t: nat, d: nat)
    requires core < ncores && t * ncores <= d < t * ncores + ncores
    ensures d % ncores == core <==> d == core + t * ncores
  {
    RemainderIs(d, ncores, t, d - t * ncores);
  }

  /** How many times the loop of a core runs: it starts at 4*core and takes 8*ncores steps. */
  function Rounds(core: nat, ncores: nat, n: nat): (t: nat)
    requires ncores > 0
  {
    if n <= 4 * core then 0 else (n - 4 * core - 1) / (8 * ncores) + 1
  }

  lemma InRounds(core: nat, ncores: nat, n: nat, t: nat)
    requires ncores > 0
    ensures t < Rounds(core, ncores, n) <==> 4 * core + t * (8 * ncores) < n
  {
    if n > 4 * core {
      var d, w := n - 4 * core - 1, 8 * ncores;
      Quotient(d, w);
      if t <= d / w {
        MulMonotone(t, d / w, w);
      } else {
        MulMonotone(d / w + 1, t, w);
        MulDistributes(d / w, 1, w);
      }
    } else {
      MulMonotone(0, t, 8 * ncores);
    }
  }

  /** The indices that vvadd1 gives to a core: its blocks of four in all the rounds it begins. */
  function Vvadd1Mine(core: nat, ncores: nat, n: nat): set<int>
    requires ncores > 0
  {
    Fours(core, ncores, Rounds(core, ncores, n) * (8 * ncores))
  }

  predicate Within(mine: set<int>, length: nat) { forall q :: q in mine ==> q < length }

  /** vvadd1.c vvadd, one core, for every length, on vectors that have the cells it touches. */
  method Vvadd1(coreid: nat, ncores: nat, n: nat, x: array<int>, y: array<int>, z: array<int>)
    requires coreid < ncores && Within(Vvadd1Mine(coreid, ncores, n), x.Length)
    requires Within(Vvadd1Mine(coreid, ncores, n), y.Length) && Within(Vvadd1Mine(coreid, ncores, n), z.Length)
    modifies z
    ensures Added(old(x[..]), old(y[..]), old(z[..]), z[..], Vvadd1Mine(coreid, ncores, n))
  {
    hide Added, Intact, Fours, Rounds, Within;
    ghost var x0, y0, z0 := x[..], y[..], z[..];
    IntactStart(x, y, z, 0);
    NoFours(coreid, ncores);
    var i := coreid * 4;
    ghost var t := 0;
    InRounds(coreid, ncores, n, t);
    while i < n
      invariant 0 <= t <= Rounds(coreid, ncores, n) && i == coreid * 4 + t * (8 * ncores)
      invariant i < n <==> t < Rounds(coreid, ncores, n)
      invariant Intact(x, y, z, x0, y0, z0, Fours(coreid, ncores, t * (8 * ncores)))
      decreases Rounds(coreid, ncores, n) - t
    {
      Vvadd1Step(coreid, ncores, t);
      Vvadd1Room(coreid, ncores, n, t, x.Length);
      Vvadd1Room(coreid, ncores, n, t, y.Length);
      Vvadd1Room(coreid, ncores, n, t, z.Length);
      AddFour(x, y, z, i, x0, y0, z0, Fours(coreid, ncores, t * (8 * ncores)));
      AddFour(x, y, z, i + ncores * 4, x0, y0, z0, Fours(coreid, ncores, t * (8 * ncores) + 4 * ncores));
      i := i + 8 * ncores;
      t := t + 1;
      InRounds(coreid, ncores, n, t);
    }
    IntactEnd(x, y, z, x0, y0, z0, Vvadd1Mine(coreid, ncores, n));
  }

  lemma NoFours(coreid: nat, ncores: nat)
    requires coreid < ncores
    ensures Fours(coreid, ncores, 0 * (8 * ncores)) == {}
  {
  }

  /** One round of a core: two blocks of four. */
  lemma Vvadd1Step(coreid: nat, ncores: nat, t: nat)
    requires coreid < ncores
    ensures var lo := t * (8 * ncores);
            var i := coreid * 4 + lo;
            && (t + 1) * (8 * ncores) == lo + 8 * ncores
            && Fours(coreid, ncores, lo + 4 * ncores) == Fours(coreid, ncores, lo) + Rows(i, i + 4)
            && Fours(coreid, ncores, lo) !! Rows(i, i + 4)
            && Fours(coreid, ncores, lo + 8 * ncores) == Fours(coreid, ncores, lo + 4 * ncores)
                + Rows(i + ncores * 4, i + ncores * 4 + 4)
            && Fours(coreid, ncores, lo + 4 * ncores) !! Rows(i + ncores * 4, i + ncores * 4 + 4)
  {
    MulDistributes(t, 1, 8 * ncores);
    MulMonotone(0, t, 8 * ncores);
    var w := (2 * t) * ncores;
    assert t * (8 * ncores) == 4 * w;
    assert (2 * t + 1) * ncores == w + ncores;
    NextFours(coreid, ncores, coreid + w, 2 * t);
    NextFours(coreid, ncores, coreid + (2 * t + 1) * ncores, 2 * t + 1);
  }

  lemma Vvadd1Room(coreid: nat, ncores: nat, n: nat, t: nat, length: nat)
    requires coreid < ncores && t < Rounds(coreid, ncores, n) && Within(Vvadd1Mine(coreid, ncores, n), length)
    ensures coreid * 4 + t * (8 * ncores) + 4 * ncores + 4 <= length
  {
    var i := coreid * 4 + t * (8 * ncores);
    var q := i + 4 * ncores + 3;
    MulMonotone(t + 1, Rounds(coreid, ncores, n), 8 * ncores);
    Vvadd1Step(coreid, ncores, t);
    hide Fours, Within, Rounds;
    assert q in Rows(i + ncores * 4, i + ncores * 4 + 4);
    FoursGrow(coreid, ncores, t * (8 * ncores) + 8 * ncores, Rounds(coreid, ncores, n) * (8 * ncores));
    assert q in Vvadd1Mine(coreid, ncores, n);
    WithinAt(Vvadd1Mine(coreid, ncores, n), length, q);
  }

  lemma WithinAt(mine: set<int>, length: nat, q: int)
    requires Within(mine, length) && q in mine
    ensures q < length
  {
  }

  lemma FoursGrow(core: nat, ncores: nat, lo: nat, hi: nat)
    requires ncores > 0 && lo <= hi
    ensures Fours(core, ncores, lo) <= Fours(core, ncores, hi)
  {
  }

  /** The core touches nothing beyond the vector. */
  predicate StaysInside(core: nat, ncores: nat, n: nat)
    requires ncores > 0
  {
    Within(Vvadd1Mine(core, ncores, n), n)
  }

  /** No core touches anything beyond the vector exactly when the length is a multiple of 8*ncores. */
  lemma AllStayInsideIff(ncores: nat, n: nat)
    requires ncores > 0
    ensures (forall core: nat :: core < ncores ==> StaysInside(core, ncores, n)) <==> n % (8 * ncores) == 0
  {
    hide StaysInside;
    var g, r := RoundOf(8 * ncores, n);
    RoundsLeave(ncores, n, g, r);
  }

  /** The round an index is in, and its place there. */
  lemma RoundOf(w: nat, q: nat) returns (g: nat, r: nat)
    requires w > 0
    ensures q == w * g + r && r < w && r == q % w
  {
    Quotient(q, w);
    g, r := q / w, q % w;
  }

  lemma RoundsLeave(ncores: nat, n: nat, g: nat, r: nat)
    requires ncores > 0 && n == (8 * ncores) * g + r && r < 8 * ncores
    ensures (forall core: nat :: core < ncores ==> StaysInside(core, ncores, n)) <==> r == 0
  {
    hide StaysInside;
    if r == 0 {
      forall core: nat | core < ncores
        ensures StaysInside(core, ncores, n)
      {
        WholeRounds(core, ncores, n, g);
      }
    } else {
      Overruns(ncores, n, g, r);
    }
  }

  lemma WholeRounds(core: nat, ncores: nat, n: nat, g: nat)
    requires ncores > 0 && n == (8 * ncores) * g
    ensures StaysInside(core, ncores, n)
  {
    hide Rounds;
    InRounds(core, ncores, n, g);
    MulMonotone(Rounds(core, ncores, n), g, 8 * ncores);
    assert n == g * (8 * ncores);
  }

  /** If the cores leave an incomplete round over, core 0 or the last core goes beyond the end. */
  lemma Overruns(ncores: nat, n: nat, g: nat, r: nat)
    requires ncores > 0 && n == (8 * ncores) * g + r && 0 < r < 8 * ncores
    ensures !StaysInside(0, ncores, n) || !StaysInside(ncores - 1, ncores, n)
  {
    var core := if r < 4 * ncores + 4 then 0 else ncores - 1;
    InRounds(core, ncores, n, g);
    if StaysInside(core, ncores, n) {
      Vvadd1Room(core, ncores, n, g, n);
    }
  }

  /** With vvadd1 every index has exactly one owner: its block of four's number modulo ncores. */
  lemma Vvadd1Covers(ncores: nat, n: nat)
    requires ncores > 0
    ensures SharedOut(seq(ncores, core requires core >= 0 => Vvadd1Mine(core, ncores, n)), n)
  {
    var sets := seq(ncores, core requires core >= 0 => Vvadd1Mine(core, ncores, n));
    forall q: nat | q < n
      ensures HasOwner(sets, q)
    {
      Vvadd1Owner(ncores, n, q);
      hide Vvadd1Mine;
      assert OnlyOwner(sets, q, q / 4 % ncores);
    }
  }

  lemma Vvadd1Owner(ncores: nat, n: nat, q: nat)
    requires ncores > 0 && q < n
    ensures 0 <= q / 4 % ncores < ncores
    ensures forall core: nat :: core < ncores ==> (q in Vvadd1Mine(core, ncores, n) <==> core == q / 4 % ncores)
  {
    hide Rounds;
    Quotient(q / 4, ncores);
    var t, r := RoundOf(8 * ncores, q);
    StartsBefore(ncores, q, t, r);
    BeforeLastRound(ncores, n, q, q / 4 % ncores, t);
  }

  lemma BeforeLastRound(ncores: nat, n: nat, q: nat, core: nat, t: nat)
    requires ncores > 0 && 4 * core + t * (8 * ncores) <= q < n && q < t * (8 * ncores) + 8 * ncores
    ensures q < Rounds(core, ncores, n) * (8 * ncores)
  {
    hide Rounds;
    InRounds(core, ncores, n, t);
    MulMonotone(t + 1, Rounds(core, ncores, n), 8 * ncores);
    MulDistributes(t, 1, 8 * ncores);
  }

  /** The round of an index begins, for its owner, at or before it. */
  lemma StartsBefore(ncores: nat, q: nat, t: nat, r: nat)
    requires ncores > 0 && q == (8 * ncores) * t + r && r < 8 * ncores
    ensures 4 * (q / 4 % ncores) + t * (8 * ncores) <= q < t * (8 * ncores) + 8 * ncores
  {
    var u := (2 * t) * ncores;
    assert (8 * ncores) * t == 4 * u == t * (8 * ncores);
    var d := q / 4;
    assert u <= d < u + 2 * ncores;
    if d < u + ncores {
      RemainderIs(d, ncores, 2 * t, d - u);
    } else {
      MulDistributes(2 * t, 1, ncores);
      RemainderIs(d, ncores, 2 * t + 1, d - u - ncores);
    }
  }
}
