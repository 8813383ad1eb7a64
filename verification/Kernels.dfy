/** The straight-line programs of blocked products: loops laid out, register tiles, and what such
    programs add to C when they run alone. */
module Kernels {
  import opened Arithmetic
  import opened Strided
  import opened Team
  import opened CorePrograms

  // ---------- loops laid out ----------

  /** The values of a loop variable: lo, lo + step, ... below hi. */
  function Up(lo: int, hi: int, step: nat): seq<int>
    requires step > 0
    decreases hi - lo
  {
    if lo >= hi then [] else [lo] + Up(lo + step, hi, step)
  }

  /** The values of a loop variable: hi, hi - step, ... down to lo. */
  function Down(hi: int, lo: int, step: nat): seq<int>
    requires step > 0
    decreases hi - lo
  {
    if hi < lo then [] else [hi] + Down(hi - step, lo, step)
  }

  /** The statements of a loop. */
  function Each(list: seq<int>, body: int -> seq<Action>): seq<Action> {
    if list == [] then [] else body(list[0]) + Each(list[1..], body)
  }

  lemma {:induction false} UpMembers(lo: int, hi: int, step: nat, n: nat, i: int)
    requires step > 0 && hi == lo + n * step && i in Up(lo, hi, step)
    ensures exists u :: 0 <= u < n && i == lo + u * step
    ensures lo <= i && i + step <= hi
    decreases n
  {
    if n > 0 {
      MulDistributes(n - 1, 1, step);
      MulMonotone(0, n - 1, step);
      if i != lo {
        UpMembers(lo + step, hi, step, n - 1, i);
        var u :| 0 <= u < n - 1 && i == lo + step + u * step;
        MulDistributes(u, 1, step);
        assert i == lo + (u + 1) * step;
      } else {
        assert i == lo + 0 * step;
      }
    }
  }

  lemma {:induction false} DownMembers(hi: int, lo: int, step: nat, n: nat, i: int)
    requires step > 0 && hi + 1 == lo + n * step && i in Down(hi, lo, step)
    ensures exists u :: 0 <= u < n && i == lo + u * step + step - 1
    ensures lo <= i - step + 1 && i <= hi
    decreases n
  {
    if n > 0 {
      MulDistributes(n - 1, 1, step);
      MulMonotone(0, n - 1, step);
      if i != hi {
        DownMembers(hi - step, lo, step, n - 1, i);
      } else {
        assert i == lo + (n - 1) * step + step - 1;
      }
    }
  }

  // ---------- what a program touches ----------

  /** The program only works: no fills, no barrier calls, C only at these cells, and the shared array
      only below `bound`. */
  predicate Works(prog: seq<Action>, cells: set<int>, bound: nat) {
    forall k :: 0 <= k < |prog| ==> WorksOn(prog[k], cells, bound)
  }

  predicate WorksOn(act: Action, cells: set<int>, bound: nat) {
    !act.Fill? && !act.Sync? && (Touches(act) ==> act.q in cells) && (act.SharedTerm? ==> act.addr < bound)
  }

  lemma WorksBoth(f: seq<Action>, g: seq<Action>, cells: set<int>, bound: nat)
    requires Works(f, cells, bound) && Works(g, cells, bound)
    ensures Works(f + g, cells, bound)
  {
  }

  // ---------- what a program adds ----------

  /** Where a program runs: the shared array as it is when filled, of which it may read the first
      `bound` cells, the size of C, of which it may touch these cells, and the matrices. */
  datatype Site = Site(shared: seq<int>, bound: nat, size: nat, cells: set<int>, a: View, b: View, ld: int)

  /** The statements of p, run alone, add the box into C. */
  ghost predicate AddsFrom(prog: seq<Action>, site: Site, x: Box, p: Core) {
    Adds(p.c, Solo(prog, site.shared, p).c, site.a, site.b, 0, site.ld, x)
  }

  /** The program keeps to what it may touch, and from whatever the core starts with, running it alone
      adds the box into C. */
  ghost predicate AddsBox(prog: seq<Action>, site: Site, x: Box) {
    Works(prog, site.cells, site.bound) && forall p: Core :: |p.c| == site.size ==> AddsFrom(prog, site, x, p)
  }

  /** The cells of the box are among those that may be touched. */
  predicate BoxCells(site: Site, x: Box) {
    forall i, j :: x.i0 <= i < x.i1 && x.j0 <= j < x.j1 ==> Strided.Cell(0, site.ld, i, j) in site.cells
  }

  lemma BoxNothing(site: Site, x: Box)
    requires x.i1 <= x.i0 || x.j1 <= x.j0 || x.k1 <= x.k0
    ensures AddsBox([], site, x)
  {
  }

  lemma FromBox(prog: seq<Action>, site: Site, x: Box, p: Core)
    requires AddsBox(prog, site, x) && |p.c| == site.size
    ensures AddsFrom(prog, site, x, p)
  {
  }

  /** What two programs add, one after the other. */
  lemma FromBoth(f: seq<Action>, g: seq<Action>, site: Site, x: Box, y: Box, p: Core)
    requires AddsBox(f, site, x) && AddsBox(g, site, y) && |p.c| == site.size
    ensures
      var s0, s1, s2 := p.c, Solo(f, site.shared, p).c, Solo(f + g, site.shared, p).c;
      Adds(s0, s1, site.a, site.b, 0, site.ld, x) && Adds(s1, s2, site.a, site.b, 0, site.ld, y)
  {
    FromBox(f, site, x, p);
    FromBox(g, site, y, Solo(f, site.shared, p));
    SoloBoth(f, g, site.shared, p);
    hide Adds, Solo;
  }

  /** Boxes stacked along the rows, in either order. */
  lemma ThenRows(f: seq<Action>, g: seq<Action>, site: Site, x: Box, i: int, first: bool)
    requires x.i0 <= i <= x.i1
    requires if first then AddsBox(f, site, x.(i1 := i)) && AddsBox(g, site, x.(i0 := i))
             else AddsBox(f, site, x.(i0 := i)) && AddsBox(g, site, x.(i1 := i))
    ensures AddsBox(f + g, site, x)
  {
    WorksBoth(f, g, site.cells, site.bound);
    forall p: Core | |p.c| == site.size
      ensures AddsFrom(f + g, site, x, p)
    {
      hide Adds, Solo, AddsBox;
      FromBoth(f, g, site, if first then x.(i1 := i) else x.(i0 := i), if first then x.(i0 := i) else x.(i1 := i), p);
      AddsRows(p.c, Solo(f, site.shared, p).c, Solo(f + g, site.shared, p).c, site.a, site.b, 0, site.ld, x, i);
    }
  }

  /** Boxes side by side along the columns, in either order. */
  lemma ThenColumns(f: seq<Action>, g: seq<Action>, site: Site, x: Box, j: int, first: bool)
    requires x.j0 <= j <= x.j1
    requires if first then AddsBox(f, site, x.(j1 := j)) && AddsBox(g, site, x.(j0 := j))
             else AddsBox(f, site, x.(j0 := j)) && AddsBox(g, site, x.(j1 := j))
    ensures AddsBox(f + g, site, x)
  {
    WorksBoth(f, g, site.cells, site.bound);
    forall p: Core | |p.c| == site.size
      ensures AddsFrom(f + g, site, x, p)
    {
      hide Adds, Solo, AddsBox;
      FromBoth(f, g, site, if first then x.(j1 := j) else x.(j0 := j), if first then x.(j0 := j) else x.(j1 := j), p);
      AddsColumns(p.c, Solo(f, site.shared, p).c, Solo(f + g, site.shared, p).c, site.a, site.b, 0, site.ld, x, j);
    }
  }

  /** Slices of the inner index, in either order. */
  lemma ThenSlices(f: seq<Action>, g: seq<Action>, site: Site, x: Box, k: int, first: bool)
    requires x.k0 <= k <= x.k1
    requires if first then AddsBox(f, site, x.(k1 := k)) && AddsBox(g, site, x.(k0 := k))
             else AddsBox(f, site, x.(k0 := k)) && AddsBox(g, site, x.(k1 := k))
    ensures AddsBox(f + g, site, x)
  {
    WorksBoth(f, g, site.cells, site.bound);
    forall p: Core | |p.c| == site.size
      ensures AddsFrom(f + g, site, x, p)
    {
      hide Adds, Solo, AddsBox;
      FromBoth(f, g, site, if first then x.(k1 := k) else x.(k0 := k), if first then x.(k0 := k) else x.(k1 := k), p);
      AddsSlices(p.c, Solo(f, site.shared, p).c, Solo(f + g, site.shared, p).c, site.a, site.b, 0, site.ld, x, k);
    }
  }

  // ---------- what a loop adds ----------

  /** n steps lead from lo to hi. */
  predicate Spans(lo: int, hi: int, step: nat, n: nat) { hi == lo + n * step }

  lemma NoSteps(lo: int, hi: int, step: nat, body: int -> seq<Action>)
    requires step > 0 && Spans(lo, hi, step, 0)
    ensures lo == hi && Each(Up(lo, hi, step), body) == [] && Each(Down(hi - 1, lo, step), body) == []
  {
  }

  lemma UpStep(lo: int, hi: int, step: nat, n: nat, body: int -> seq<Action>)
    requires step > 0 && n > 0 && Spans(lo, hi, step, n)
    ensures Spans(lo + step, hi, step, n - 1) && lo + step <= hi
    ensures Up(lo, hi, step) != [] && Up(lo, hi, step)[0] == lo && Up(lo, hi, step)[1..] == Up(lo + step, hi, step)
    ensures Each(Up(lo, hi, step), body) == body(lo) + Each(Up(lo + step, hi, step), body)
  {
    MulDistributes(n - 1, 1, step);
    MulMonotone(0, n - 1, step);
  }

  lemma DownStep(hi: int, lo: int, step: nat, n: nat, body: int -> seq<Action>)
    requires step > 0 && n > 0 && Spans(lo, hi + 1, step, n)
    ensures Spans(lo, hi - step + 1, step, n - 1) && lo <= hi - step + 1
    ensures Down(hi, lo, step) != [] && Down(hi, lo, step)[0] == hi
    ensures Down(hi, lo, step)[1..] == Down(hi - step, lo, step)
    ensures Each(Down(hi, lo, step), body) == body(hi) + Each(Down(hi - step, lo, step), body)
  {
    MulDistributes(n - 1, 1, step);
    MulMonotone(0, n - 1, step);
  }

  /** Each iteration i of the loop adds the columns from i - d on, `step` of them. */
  ghost predicate EachColumns(list: seq<int>, body: int -> seq<Action>, site: Site, x: Box, step: nat, d: nat) {
    forall i :: i in list ==> ColumnAt(i, body, site, x, step, d)
  }

  ghost predicate ColumnAt(i: int, body: int -> seq<Action>, site: Site, x: Box, step: nat, d: nat) {
    AddsBox(body(i), site, x.(j0 := i - d, j1 := i - d + step))
  }

  lemma FirstColumns(list: seq<int>, body: int -> seq<Action>, site: Site, x: Box, step: nat, d: nat)
    requires list != [] && EachColumns(list, body, site, x, step, d)
    ensures AddsBox(body(list[0]), site, x.(j0 := list[0] - d, j1 := list[0] - d + step))
    ensures EachColumns(list[1..], body, site, x, step, d)
  {
    hide AddsBox;
    assert list[0] in list && ColumnAt(list[0], body, site, x, step, d);
    forall i | i in list[1..]
      ensures ColumnAt(i, body, site, x, step, d)
    {
      assert i in list;
    }
  }

  /** A loop upwards adds them all. */
  lemma {:induction false} UpColumns(lo: int, hi: int, step: nat, n: nat, body: int -> seq<Action>, site: Site, x: Box)
    requires step > 0 && Spans(lo, hi, step, n) && EachColumns(Up(lo, hi, step), body, site, x, step, 0)
    ensures AddsBox(Each(Up(lo, hi, step), body), site, x.(j0 := lo, j1 := hi))
    decreases n
  {
    hide *;
    if n == 0 {
      NoSteps(lo, hi, step, body);
      BoxNothing(site, x.(j0 := lo, j1 := hi));
    } else {
      UpStep(lo, hi, step, n, body);
      FirstColumns(Up(lo, hi, step), body, site, x, step, 0);
      UpColumns(lo + step, hi, step, n - 1, body, site, x);
      ThenColumns(body(lo), Each(Up(lo + step, hi, step), body), site, x.(j0 := lo, j1 := hi), lo + step, true);
    }
  }

  /** A loop downwards adds them all. */
  lemma {:induction false} DownColumns(hi: int, lo: int, step: nat, n: nat, body: int -> seq<Action>, site: Site,
                                       x: Box)
    requires step > 0 && Spans(lo, hi + 1, step, n) && EachColumns(Down(hi, lo, step), body, site, x, step, step - 1)
    ensures AddsBox(Each(Down(hi, lo, step), body), site, x.(j0 := lo, j1 := hi + 1))
    decreases n
  {
    hide *;
    if n == 0 {
      NoSteps(lo, hi + 1, step, body);
      BoxNothing(site, x.(j0 := lo, j1 := hi + 1));
    } else {
      DownStep(hi, lo, step, n, body);
      FirstColumns(Down(hi, lo, step), body, site, x, step, step - 1);
      DownColumns(hi - step, lo, step, n - 1, body, site, x);
      ThenColumns(body(hi), Each(Down(hi - step, lo, step), body), site, x.(j0 := lo, j1 := hi + 1), hi - step + 1,
                  false);
    }
  }

  /** Each iteration i of the loop adds the rows from i - d on, `step` of them. */
  ghost predicate EachRows(list: seq<int>, body: int -> seq<Action>, site: Site, x: Box, step: nat, d: nat) {
    forall i :: i in list ==> RowAt(i, body, site, x, step, d)
  }

  ghost predicate RowAt(i: int, body: int -> seq<Action>, site: Site, x: Box, step: nat, d: nat) {
    AddsBox(body(i), site, x.(i0 := i - d, i1 := i - d + step))
  }

  lemma FirstRows(list: seq<int>, body: int -> seq<Action>, site: Site, x: Box, step: nat, d: nat)
    requires list != [] && EachRows(list, body, site, x, step, d)
    ensures AddsBox(body(list[0]), site, x.(i0 := list[0] - d, i1 := list[0] - d + step))
    ensures EachRows(list[1..], body, site, x, step, d)
  {
    hide AddsBox;
    assert list[0] in list && RowAt(list[0], body, site, x, step, d);
    forall i | i in list[1..]
      ensures RowAt(i, body, site, x, step, d)
    {
      assert i in list;
    }
  }

  /** A loop upwards adds them all. */
  lemma {:induction false} UpRows(lo: int, hi: int, step: nat, n: nat, body: int -> seq<Action>, site: Site, x: Box)
    requires step > 0 && Spans(lo, hi, step, n) && EachRows(Up(lo, hi, step), body, site, x, step, 0)
    ensures AddsBox(Each(Up(lo, hi, step), body), site, x.(i0 := lo, i1 := hi))
    decreases n
  {
    hide *;
    if n == 0 {
      NoSteps(lo, hi, step, body);
      BoxNothing(site, x.(i0 := lo, i1 := hi));
    } else {
      UpStep(lo, hi, step, n, body);
      FirstRows(Up(lo, hi, step), body, site, x, step, 0);
      UpRows(lo + step, hi, step, n - 1, body, site, x);
      ThenRows(body(lo), Each(Up(lo + step, hi, step), body), site, x.(i0 := lo, i1 := hi), lo + step, true);
    }
  }

  /** A loop downwards adds them all. */
  lemma {:induction false} DownRows(hi: int, lo: int, step: nat, n: nat, body: int -> seq<Action>, site: Site, x: Box)
    requires step > 0 && Spans(lo, hi + 1, step, n) && EachRows(Down(hi, lo, step), body, site, x, step, step - 1)
    ensures AddsBox(Each(Down(hi, lo, step), body), site, x.(i0 := lo, i1 := hi + 1))
    decreases n
  {
    hide *;
    if n == 0 {
      NoSteps(lo, hi + 1, step, body);
      BoxNothing(site, x.(i0 := lo, i1 := hi + 1));
    } else {
      DownStep(hi, lo, step, n, body);
      FirstRows(Down(hi, lo, step), body, site, x, step, step - 1);
      DownRows(hi - step, lo, step, n - 1, body, site, x);
      ThenRows(body(hi), Each(Down(hi - step, lo, step), body), site, x.(i0 := lo, i1 := hi + 1), hi - step + 1, false);
    }
  }

  /** Each iteration i of the loop adds the inner indices from i - d on, `step` of them. */
  ghost predicate EachSlices(list: seq<int>, body: int -> seq<Action>, site: Site, x: Box, step: nat, d: nat) {
    forall i :: i in list ==> SliceAt(i, body, site, x, step, d)
  }

  ghost predicate SliceAt(i: int, body: int -> seq<Action>, site: Site, x: Box, step: nat, d: nat) {
    AddsBox(body(i), site, x.(k0 := i - d, k1 := i - d + step))
  }

  lemma FirstSlices(list: seq<int>, body: int -> seq<Action>, site: Site, x: Box, step: nat, d: nat)
    requires list != [] && EachSlices(list, body, site, x, step, d)
    ensures AddsBox(body(list[0]), site, x.(k0 := list[0] - d, k1 := list[0] - d + step))
    ensures EachSlices(list[1..], body, site, x, step, d)
  {
    hide AddsBox;
    assert list[0] in list && SliceAt(list[0], body, site, x, step, d);
    forall i | i in list[1..]
      ensures SliceAt(i, body, site, x, step, d)
    {
      assert i in list;
    }
  }

  /** A loop upwards adds them all. */
  lemma {:induction false} UpSlices(lo: int, hi: int, step: nat, n: nat, body: int -> seq<Action>, site: Site, x: Box)
    requires step > 0 && Spans(lo, hi, step, n) && EachSlices(Up(lo, hi, step), body, site, x, step, 0)
    ensures AddsBox(Each(Up(lo, hi, step), body), site, x.(k0 := lo, k1 := hi))
    decreases n
  {
    hide *;
    if n == 0 {
      NoSteps(lo, hi, step, body);
      BoxNothing(site, x.(k0 := lo, k1 := hi));
    } else {
      UpStep(lo, hi, step, n, body);
      FirstSlices(Up(lo, hi, step), body, site, x, step, 0);
      UpSlices(lo + step, hi, step, n - 1, body, site, x);
      ThenSlices(body(lo), Each(Up(lo + step, hi, step), body), site, x.(k0 := lo, k1 := hi), lo + step, true);
    }
  }

  // ---------- sums in registers ----------

  predicate IsTerm(act: Action) { act.Term? || act.SharedTerm? }

  function Product(act: Action, shared: seq<int>): int {
    match act
    case Term(_, x, y) => x * y
    case SharedTerm(_, x, addr) => x * ValueAt(shared, addr)
    case _ => 0
  }

  /** What a list of terms adds to register r. */
  function SumOf(terms: seq<Action>, shared: seq<int>, r: nat): int {
    if terms == [] then 0
    else
      var last := terms[|terms| - 1];
      SumOf(terms[..|terms| - 1], shared, r) + if IsTerm(last) && last.reg == r then Product(last, shared) else 0
  }

  predicate OnlyTerms(terms: seq<Action>) { forall k :: 0 <= k < |terms| ==> IsTerm(terms[k]) }

  lemma {:induction false} TermsRun(terms: seq<Action>, shared: seq<int>, p: Core)
    requires OnlyTerms(terms)
    ensures Solo(terms, shared, p).c == p.c
    ensures forall r: nat :: Reg(Solo(terms, shared, p).regs, r) == Reg(p.regs, r) + SumOf(terms, shared, r)
    decreases |terms|
  {
    if terms != [] {
      TermsRun(terms[..|terms| - 1], shared, p);
    }
  }

  lemma {:induction false} SumOfBoth(f: seq<Action>, g: seq<Action>, shared: seq<int>, r: nat)
    ensures SumOf(f + g, shared, r) == SumOf(f, shared, r) + SumOf(g, shared, r)
    decreases |g|
  {
    if g == [] {
      assert f + g == f;
    } else {
      assert (f + g)[..|f + g| - 1] == f + g[..|g| - 1];
      SumOfBoth(f, g[..|g| - 1], shared, r);
    }
  }

  /** The terms of N registers for the inner indices ks, W indices at a time: register by register,
      each with its W terms. */
  function Terms(N: nat, W: nat, ks: seq<int>, term: (nat, int) -> Action): seq<Action>
    requires W > 0
    decreases |ks|
  {
    if |ks| < W then [] else Group(N, W, ks[..W], term) + Terms(N, W, ks[W..], term)
  }

  function Group(N: nat, W: nat, ks: seq<int>, term: (nat, int) -> Action): seq<Action>
    requires W > 0 && |ks| == W
  {
    seq(N * W, n requires 0 <= n < N * W => term(n / W, ks[n % W]))
  }

  /** The sum of the products of register r for the inner indices ks. */
  function SumOver(ks: seq<int>, term: (nat, int) -> Action, shared: seq<int>, r: nat): int {
    if ks == [] then 0 else SumOver(ks[..|ks| - 1], term, shared, r) + Product(term(r, ks[|ks| - 1]), shared)
  }

  lemma {:induction false} SumOverBoth(f: seq<int>, g: seq<int>, term: (nat, int) -> Action, shared: seq<int>, r: nat)
    ensures SumOver(f + g, term, shared, r) == SumOver(f, term, shared, r) + SumOver(g, term, shared, r)
    decreases |g|
  {
    if g == [] {
      assert f + g == f;
    } else {
      assert (f + g)[..|f + g| - 1] == f + g[..|g| - 1];
      SumOverBoth(f, g[..|g| - 1], term, shared, r);
    }
  }

  /** Every statement built by `term` is a term of its register. */
  ghost predicate TermOf(term: (nat, int) -> Action) { forall n: nat, k: int :: TermAt(term, n, k) }

  predicate TermAt(term: (nat, int) -> Action, n: nat, k: int) { IsTerm(term(n, k)) && term(n, k).reg == n }

  /** How many of the first n terms of a group are those of register r. */
  function Reached(n: int, W: nat, r: nat): (m: nat)
    ensures m <= W
  {
    if n <= r * W then 0 else if n - r * W >= W then W else n - r * W
  }

  lemma NextReached(n: nat, W: nat, r: nat)
    requires W > 0
    ensures if n / W == r then Reached(n, W, r) == n % W && Reached(n + 1, W, r) == n % W + 1
        else Reached(n + 1, W, r) == Reached(n, W, r)
  {
    assert n == n / W * W + n % W;
    if n / W < r {
      MulMonotone(n / W + 1, r, W);
      MulDistributes(n / W, 1, W);
    } else if r < n / W {
      MulMonotone(r + 1, n / W, W);
      MulDistributes(r, 1, W);
    }
  }

  lemma {:induction false} GroupSums(N: nat, W: nat, ks: seq<int>, term: (nat, int) -> Action, shared: seq<int>,
                                     r: nat, n: nat)
    requires W > 0 && |ks| == W && TermOf(term) && n <= N * W
    ensures SumOf(Group(N, W, ks, term)[..n], shared, r) == SumOver(ks[..Reached(n, W, r)], term, shared, r)
    decreases n
  {
    var g := Group(N, W, ks, term);
    if n > 0 {
      GroupSums(N, W, ks, term, shared, r, n - 1);
      NextReached(n - 1, W, r);
      GroupAt(N, W, ks, term, n - 1);
      assert g[..n][..n - 1] == g[..n - 1];
      hide Group, Reached, Product;
      var m := Reached(n, W, r);
      if g[n - 1].reg == r {
        assert ks[..m][..m - 1] == ks[..m - 1];
      }
    }
  }

  lemma GroupAt(N: nat, W: nat, ks: seq<int>, term: (nat, int) -> Action, n: nat)
    requires W > 0 && |ks| == W && TermOf(term) && n < N * W
    ensures var act := Group(N, W, ks, term)[n];
            0 <= n % W < W && act == term(n / W, ks[n % W]) && IsTerm(act) && act.reg == n / W
  {
    var r: nat := n / W;
    assert TermAt(term, r, ks[n % W]);
  }

  lemma GroupSum(N: nat, W: nat, ks: seq<int>, term: (nat, int) -> Action, shared: seq<int>, r: nat)
    requires W > 0 && |ks| == W && TermOf(term) && r < N
    ensures SumOf(Group(N, W, ks, term), shared, r) == SumOver(ks, term, shared, r)
  {
    var g := Group(N, W, ks, term);
    GroupSums(N, W, ks, term, shared, r, N * W);
    assert g[..N * W] == g;
    MulMonotone(r + 1, N, W);
    MulDistributes(r, 1, W);
    assert ks[..W] == ks;
  }

  /** The terms sum up every register over all the inner indices. */
  lemma {:induction false} TermsSum(N: nat, W: nat, ks: seq<int>, m: nat, term: (nat, int) -> Action,
                                    shared: seq<int>, r: nat)
    requires W > 0 && |ks| == m * W && TermOf(term) && r < N
    ensures SumOf(Terms(N, W, ks, term), shared, r) == SumOver(ks, term, shared, r)
    ensures OnlyTerms(Terms(N, W, ks, term))
    decreases m
  {
    if m > 0 {
      MulDistributes(m - 1, 1, W);
      MulMonotone(0, m - 1, W);
      GroupSum(N, W, ks[..W], term, shared, r);
      GroupTerms(N, W, ks[..W], term);
      hide Group, SumOf, SumOver, TermOf;
      TermsSum(N, W, ks[W..], m - 1, term, shared, r);
      SumOfBoth(Group(N, W, ks[..W], term), Terms(N, W, ks[W..], term), shared, r);
      SumOverBoth(ks[..W], ks[W..], term, shared, r);
      assert ks[..W] + ks[W..] == ks;
    }
  }

  lemma GroupTerms(N: nat, W: nat, ks: seq<int>, term: (nat, int) -> Action)
    requires W > 0 && |ks| == W && TermOf(term)
    ensures OnlyTerms(Group(N, W, ks, term))
  {
    forall n: nat | n < |Group(N, W, ks, term)|
      ensures IsTerm(Group(N, W, ks, term)[n])
    {
      GroupAt(N, W, ks, term, n);
    }
  }

  /** term(r, k) is the product of row i and column j at inner index k. */
  ghost predicate Multiplies(term: (nat, int) -> Action, shared: seq<int>, r: nat, a: View, b: View, i: int, j: int,
                             lo: int, hi: int) {
    forall k :: lo <= k < hi ==> Product(term(r, k), shared) == a.At(i, k) * b.At(k, j)
  }

  /** Summing upwards gives the slice of the inner product. */
  lemma {:induction false} SumUp(
    lo: int, hi: int, term: (nat, int) -> Action, shared: seq<int>, r: nat, a: View, b: View, i: int, j: int)
    requires lo <= hi && Multiplies(term, shared, r, a, b, i, j, lo, hi)
    ensures SumOver(Up(lo, hi, 1), term, shared, r) == Dot(a, b, i, j, lo, hi)
    decreases hi - lo
  {
    if lo < hi {
      SumUp(lo + 1, hi, term, shared, r, a, b, i, j);
      SumOverBoth([lo], Up(lo + 1, hi, 1), term, shared, r);
      assert [lo][..0] == [];
      DotSplit(a, b, i, j, lo, lo + 1, hi);
      DotStep(a, b, i, j, lo, lo);
    }
  }

  /** Summing downwards gives the same. */
  lemma {:induction false} SumDown(
    lo: int, hi: int, term: (nat, int) -> Action, shared: seq<int>, r: nat, a: View, b: View, i: int, j: int)
    requires lo <= hi && Multiplies(term, shared, r, a, b, i, j, lo, hi)
    ensures SumOver(Down(hi - 1, lo, 1), term, shared, r) == Dot(a, b, i, j, lo, hi)
    decreases hi - lo
  {
    if lo < hi {
      SumDown(lo, hi - 1, term, shared, r, a, b, i, j);
      SumOverBoth([hi - 1], Down(hi - 2, lo, 1), term, shared, r);
      assert [hi - 1][..0] == [];
    }
  }

  lemma {:induction false} UpLength(lo: int, hi: int)
    requires lo <= hi
    ensures |Up(lo, hi, 1)| == hi - lo && forall k :: 0 <= k < hi - lo ==> Up(lo, hi, 1)[k] == lo + k
    decreases hi - lo
  {
    if lo < hi {
      UpLength(lo + 1, hi);
    }
  }

  lemma {:induction false} DownLength(hi: int, lo: int)
    requires lo <= hi + 1
    ensures |Down(hi, lo, 1)| == hi + 1 - lo && forall k :: 0 <= k < hi + 1 - lo ==> Down(hi, lo, 1)[k] == hi - k
    decreases hi - lo
  {
    if lo <= hi {
      DownLength(hi - 1, lo);
    }
  }

  // ---------- register tiles ----------

  /** Register n of a tile is for the cell at rows[n], cols[n]. */
  datatype Tile = Tile(rows: seq<int>, cols: seq<int>)

  function Addr(t: Tile, ld: int, n: nat): int
    requires n < |t.rows| == |t.cols|
  {
    t.rows[n] * ld + t.cols[n]
  }

  predicate CellIn(t: Tile, n: nat, x: Box, ld: int, size: nat)
    requires n < |t.rows| == |t.cols|
  {
    && x.i0 <= t.rows[n] < x.i1 && x.j0 <= t.cols[n] < x.j1
    && 0 <= t.cols[n] < ld && 0 <= Addr(t, ld, n) < size
  }

  predicate At(t: Tile, n: nat, i: int, j: int)
    requires n < |t.rows| == |t.cols|
  {
    t.rows[n] == i && t.cols[n] == j
  }

  ghost predicate HasCell(t: Tile, i: int, j: int)
    requires |t.rows| == |t.cols|
  {
    exists n: nat :: n < |t.rows| && At(t, n, i, j)
  }

  /** The registers are for the cells of the box, one each. */
  ghost predicate Covers(t: Tile, x: Box, ld: int, size: nat) {
    && |t.rows| == |t.cols|
    && (forall n: nat :: n < |t.rows| ==> CellIn(t, n, x, ld, size))
    && (forall n: nat, m: nat :: n < |t.rows| && m < |t.rows| && At(t, n, t.rows[m], t.cols[m]) ==> n == m)
    && forall i, j :: x.i0 <= i < x.i1 && x.j0 <= j < x.j1 ==> HasCell(t, i, j)
  }

  lemma OwnAddress(t: Tile, x: Box, ld: int, size: nat, n: nat, m: nat)
    requires Covers(t, x, ld, size) && n < |t.rows| && m < |t.rows| && Addr(t, ld, n) == Addr(t, ld, m)
    ensures n == m
  {
    assert CellIn(t, n, x, ld, size) && CellIn(t, m, x, ld, size);
    Coordinates(Addr(t, ld, n), 0, ld, t.rows[n], t.cols[n]);
    Coordinates(Addr(t, ld, m), 0, ld, t.rows[m], t.cols[m]);
    assert At(t, n, t.rows[m], t.cols[m]);
  }

  /** `order` names registers of the tile, each at least once. */
  ghost predicate Names(order: seq<nat>, N: nat) {
    (forall k :: 0 <= k < |order| ==> order[k] < N) && forall n: nat :: n < N ==> Named(order, n)
  }

  ghost predicate Named(order: seq<nat>, n: nat) { exists k :: 0 <= k < |order| && order[k] == n }

  /** Loading the registers in this order. */
  function Loads(t: Tile, ld: int, order: seq<nat>): seq<Action>
    requires |t.rows| == |t.cols| && forall k :: 0 <= k < |order| ==> order[k] < |t.rows|
  {
    seq(|order|, k requires 0 <= k < |order| => Load(order[k], Addr(t, ld, order[k])))
  }

  /** Storing them. */
  function Saves(t: Tile, ld: int, order: seq<nat>): seq<Action>
    requires |t.rows| == |t.cols| && forall k :: 0 <= k < |order| ==> order[k] < |t.rows|
  {
    seq(|order|, k requires 0 <= k < |order| => Save(Addr(t, ld, order[k]), order[k]))
  }

  lemma {:induction false} LoadsRun(t: Tile, ld: int, order: seq<nat>, shared: seq<int>, p: Core, m: nat)
    requires |t.rows| == |t.cols| && m <= |order| && forall k :: 0 <= k < |order| ==> order[k] < |t.rows|
    ensures var p' := Solo(Loads(t, ld, order)[..m], shared, p);
            && p'.c == p.c
            && forall k :: 0 <= k < m ==> Reg(p'.regs, order[k]) == ValueAt(p.c, Addr(t, ld, order[k]))
  {
    if m > 0 {
      LoadsRun(t, ld, order, shared, p, m - 1);
      SoloNext(Loads(t, ld, order), m - 1, shared, p);
      hide Addr, ValueAt, Solo;
    }
  }

  lemma {:induction false} SavesRun(t: Tile, x: Box, ld: int, size: nat, order: seq<nat>, shared: seq<int>, p: Core,
                                    m: nat)
    requires Covers(t, x, ld, size) && |p.c| == size && m <= |order|
      && forall k :: 0 <= k < |order| ==> order[k] < |t.rows|
    ensures var p' := Solo(Saves(t, ld, order)[..m], shared, p);
            && p'.regs == p.regs
            && (forall k :: 0 <= k < m ==> ValueAt(p'.c, Addr(t, ld, order[k])) == Reg(p.regs, order[k]))
            && forall q :: 0 <= q < size && NoCell(t, ld, q) ==> p'.c[q] == p.c[q]
  {
    if m > 0 {
      SavesRun(t, x, ld, size, order, shared, p, m - 1);
      SoloNext(Saves(t, ld, order), m - 1, shared, p);
      var q := Addr(t, ld, order[m - 1]);
      assert CellIn(t, order[m - 1], x, ld, size);
      forall k | 0 <= k < m && Addr(t, ld, order[k]) == q
        ensures order[k] == order[m - 1]
      {
        OwnAddress(t, x, ld, size, order[k], order[m - 1]);
      }
      hide Addr, Solo, Covers;
    }
  }

  /** Register n has the inner product of its cell over the inner indices of the box. */
  ghost predicate SumsTo(terms: seq<Action>, t: Tile, x: Box, site: Site, n: nat)
    requires n < |t.rows| == |t.cols|
  {
    SumOf(terms, site.shared, n) == Dot(site.a, site.b, t.rows[n], t.cols[n], x.k0, x.k1)
  }

  /** The terms of a tile compute its inner products. */
  ghost predicate Computes(terms: seq<Action>, t: Tile, x: Box, site: Site)
    requires |t.rows| == |t.cols|
  {
    OnlyTerms(terms) && forall n: nat :: n < |t.rows| ==> SumsTo(terms, t, x, site, n)
  }

  /** The cell of register n has gained its inner product. */
  ghost predicate Gained(t: Tile, n: nat, before: seq<int>, after: seq<int>, x: Box, site: Site)
    requires n < |t.rows| == |t.cols|
  {
    var q := Addr(t, site.ld, n);
    0 <= q < |before| == |after| && after[q] == before[q] + Dot(site.a, site.b, t.rows[n], t.cols[n], x.k0, x.k1)
  }

  /** Exactly the cells of the tile have changed, each by its inner product. */
  ghost predicate AllGained(t: Tile, before: seq<int>, after: seq<int>, x: Box, site: Site)
    requires |t.rows| == |t.cols|
  {
    && |after| == |before|
    && (forall n: nat :: n < |t.rows| ==> Gained(t, n, before, after, x, site))
    && forall q :: 0 <= q < |after| && NoCell(t, site.ld, q) ==> after[q] == before[q]
  }

  predicate NoCell(t: Tile, ld: int, q: int)
    requires |t.rows| == |t.cols|
  {
    forall n: nat :: n < |t.rows| ==> Addr(t, ld, n) != q
  }

  /** A tile whose cells have all gained their inner products, and nothing else, has added its box. */
  lemma TileDone(t: Tile, before: seq<int>, after: seq<int>, x: Box, site: Site)
    requires Covers(t, x, site.ld, site.size) && |before| == |after| == site.size
    requires AllGained(t, before, after, x, site)
    ensures Adds(before, after, site.a, site.b, 0, site.ld, x)
  {
    forall q | 0 <= q < |after|
      ensures after[q] == before[q] + Share(site.a, site.b, q, 0, site.ld, x)
    {
      CellDone(t, before, after, x, site, q);
    }
  }

  lemma CellDone(t: Tile, before: seq<int>, after: seq<int>, x: Box, site: Site, q: nat)
    requires Covers(t, x, site.ld, site.size) && |before| == |after| == site.size && q < |after|
    requires AllGained(t, before, after, x, site)
    ensures after[q] == before[q] + Share(site.a, site.b, q, 0, site.ld, x)
  {
    hide Dot;
    var ld := site.ld;
    if ld > 0 && x.i0 <= RowOf(q, 0, ld) < x.i1 && x.j0 <= ColOf(q, 0, ld) < x.j1 {
      assert HasCell(t, RowOf(q, 0, ld), ColOf(q, 0, ld));
      var n: nat :| n < |t.rows| && At(t, n, RowOf(q, 0, ld), ColOf(q, 0, ld));
      CellOf(q, 0, ld);
      assert Addr(t, ld, n) == q && Gained(t, n, before, after, x, site);
    } else {
      forall n: nat | n < |t.rows|
        ensures Addr(t, ld, n) != q
      {
        assert CellIn(t, n, x, ld, site.size);
        Coordinates(Addr(t, ld, n), 0, ld, t.rows[n], t.cols[n]);
      }
    }
  }

  /** A register tile: load, sum up, store. */
  function TileProgram(t: Tile, ld: int, loads: seq<nat>, terms: seq<Action>, saves: seq<nat>): seq<Action>
    requires |t.rows| == |t.cols| && (forall k :: 0 <= k < |loads| ==> loads[k] < |t.rows|)
    requires forall k :: 0 <= k < |saves| ==> saves[k] < |t.rows|
  {
    Loads(t, ld, loads) + (terms + Saves(t, ld, saves))
  }

  lemma TileSplit(t: Tile, ld: int, loads: seq<nat>, terms: seq<Action>, saves: seq<nat>, shared: seq<int>, p: Core)
    requires |t.rows| == |t.cols| && Names(loads, |t.rows|) && Names(saves, |t.rows|)
    ensures var f, g := Loads(t, ld, loads), Saves(t, ld, saves);
            && f[..|loads|] == f && g[..|saves|] == g
            && Solo(TileProgram(t, ld, loads, terms, saves), shared, p)
                == Solo(g, shared, Solo(terms, shared, Solo(f, shared, p)))
  {
    var f, g := Loads(t, ld, loads), Saves(t, ld, saves);
    SoloBoth(f, terms + g, shared, p);
    SoloBoth(terms, g, shared, Solo(f, shared, p));
  }

  lemma TileRun(t: Tile, loads: seq<nat>, terms: seq<Action>, saves: seq<nat>, x: Box, site: Site, p: Core)
    requires |t.rows| == |t.cols| && Covers(t, x, site.ld, site.size) && Names(loads, |t.rows|)
      && Names(saves, |t.rows|)
    requires Computes(terms, t, x, site) && |p.c| == site.size
    ensures AllGained(t, p.c, Solo(TileProgram(t, site.ld, loads, terms, saves), site.shared, p).c, x, site)
  {
    hide Solo, Loads, Saves, SumOf, Dot, Addr, Reg, Covers, Named, SumsTo, NoCell, ValueAt, Works;
    var f, g := Loads(t, site.ld, loads), Saves(t, site.ld, saves);
    var p1 := Solo(f, site.shared, p);
    var p2 := Solo(terms, site.shared, p1);
    TileSplit(t, site.ld, loads, terms, saves, site.shared, p);
    LoadsRun(t, site.ld, loads, site.shared, p, |loads|);
    TermsRun(terms, site.shared, p1);
    SavesRun(t, x, site.ld, site.size, saves, site.shared, p2, |saves|);
    forall n: nat | n < |t.rows|
      ensures Gained(t, n, p.c, Solo(g, site.shared, p2).c, x, site)
    {
      RegisterGained(t, loads, terms, saves, x, site, n, p.c, p1.regs, p2.regs, Solo(g, site.shared, p2).c);
    }
  }

  lemma RegisterGained(
    t: Tile, loads: seq<nat>, terms: seq<Action>, saves: seq<nat>, x: Box, site: Site, n: nat,
    before: seq<int>, regs: Registers, sums: Registers, after: seq<int>)
    requires Covers(t, x, site.ld, site.size) && Names(loads, |t.rows|) && Names(saves, |t.rows|)
    requires Computes(terms, t, x, site) && n < |t.rows| && |before| == |after| == site.size
    requires forall k :: 0 <= k < |loads| ==> Reg(regs, loads[k]) == ValueAt(before, Addr(t, site.ld, loads[k]))
    requires Reg(sums, n) == Reg(regs, n) + SumOf(terms, site.shared, n)
    requires forall k :: 0 <= k < |saves| ==> ValueAt(after, Addr(t, site.ld, saves[k])) == Reg(sums, saves[k])
    ensures Gained(t, n, before, after, x, site)
  {
    RegisterFacts(t, loads, terms, saves, x, site, n);
    hide SumOf, Dot, Addr, Reg, Covers, Names, Computes;
  }

  lemma RegisterFacts(t: Tile, loads: seq<nat>, terms: seq<Action>, saves: seq<nat>, x: Box, site: Site, n: nat)
    requires Covers(t, x, site.ld, site.size) && Names(loads, |t.rows|) && Names(saves, |t.rows|)
    requires Computes(terms, t, x, site) && n < |t.rows|
    ensures Named(loads, n) && Named(saves, n) && 0 <= Addr(t, site.ld, n) < site.size && SumsTo(terms, t, x, site, n)
  {
    hide SumsTo;
    assert CellIn(t, n, x, site.ld, site.size);
  }

  lemma TileAdds(t: Tile, loads: seq<nat>, terms: seq<Action>, saves: seq<nat>, x: Box, site: Site)
    requires Covers(t, x, site.ld, site.size) && Names(loads, |t.rows|) && Names(saves, |t.rows|)
    requires Computes(terms, t, x, site) && BoxCells(site, x) && TermsWork(terms, site.bound)
    ensures AddsBox(TileProgram(t, site.ld, loads, terms, saves), site, x)
  {
    TileCellsIn(t, x, site);
    TileWorks(t, site.ld, loads, terms, saves, site.cells, site.bound);
    var prog := TileProgram(t, site.ld, loads, terms, saves);
    forall p: Core | |p.c| == site.size
      ensures AddsFrom(prog, site, x, p)
    {
      TileRun(t, loads, terms, saves, x, site, p);
      hide Covers, Names, Computes, TileProgram, Solo, AllGained, Adds;
      TileDone(t, p.c, Solo(prog, site.shared, p).c, x, site);
    }
  }

  // ---------- tiles that start at zero and are added to C ----------

  function Clears(N: nat): seq<Action> { seq(N, n requires 0 <= n < N => Clear(n)) }

  function AddTos(t: Tile, ld: int): seq<Action>
    requires |t.rows| == |t.cols|
  {
    seq(|t.rows|, n requires 0 <= n < |t.rows| => AddTo(Addr(t, ld, n), n))
  }

  function FreshProgram(t: Tile, ld: int, terms: seq<Action>): seq<Action>
    requires |t.rows| == |t.cols|
  {
    Clears(|t.rows|) + (terms + AddTos(t, ld))
  }

  lemma {:induction false} ClearsRun(N: nat, shared: seq<int>, p: Core, m: nat)
    requires m <= N
    ensures var p' := Solo(Clears(N)[..m], shared, p); p'.c == p.c && forall n :: 0 <= n < m ==> Reg(p'.regs, n) == 0
  {
    if m > 0 {
      ClearsRun(N, shared, p, m - 1);
      SoloNext(Clears(N), m - 1, shared, p);
      var before, after := Solo(Clears(N)[..m - 1], shared, p), Solo(Clears(N)[..m], shared, p);
      assert after.regs == before.regs[m - 1 := 0];
      hide Solo, Clears;
      forall n | 0 <= n < m
        ensures Reg(after.regs, n) == 0
      {
        assert n < m - 1 ==> Reg(before.regs, n) == 0;
      }
    }
  }

  lemma OwnAddresses(t: Tile, x: Box, ld: int, size: nat, m: nat)
    requires Covers(t, x, ld, size) && m < |t.rows|
    ensures forall n: nat :: n < |t.rows| && Addr(t, ld, n) == Addr(t, ld, m) ==> n == m
  {
    forall n: nat | n < |t.rows| && Addr(t, ld, n) == Addr(t, ld, m)
      ensures n == m
    {
      OwnAddress(t, x, ld, size, n, m);
    }
  }

  /** The first m cells of the tile have gained their registers, and nothing else has changed. */
  ghost predicate AddedUpTo(t: Tile, ld: int, regs: Registers, before: seq<int>, after: seq<int>, m: nat)
    requires |t.rows| == |t.cols|
  {
    && |before| == |after|
    && (forall n: nat :: n < |t.rows| ==> AddedAt(t, ld, regs, before, after, m, n))
    && forall q :: 0 <= q < |after| && NoCell(t, ld, q) ==> after[q] == before[q]
  }

  ghost predicate AddedAt(t: Tile, ld: int, regs: Registers, before: seq<int>, after: seq<int>, m: nat, n: nat)
    requires n < |t.rows| == |t.cols|
  {
    var q := Addr(t, ld, n);
    ValueAt(after, q) == ValueAt(before, q) + if n < m then Reg(regs, n) else 0
  }

  lemma AddedMore(t: Tile, x: Box, ld: int, size: nat, regs: Registers, before: seq<int>, mid: seq<int>, m: nat)
    requires Covers(t, x, ld, size) && |before| == size && m < |t.rows| && AddedUpTo(t, ld, regs, before, mid, m)
    ensures var q := Addr(t, ld, m);
            AddedUpTo(t, ld, regs, before, Put(mid, q, ValueAt(mid, q) + Reg(regs, m)), m + 1)
  {
    var q := Addr(t, ld, m);
    var after := Put(mid, q, ValueAt(mid, q) + Reg(regs, m));
    assert CellIn(t, m, x, ld, size);
    OwnAddresses(t, x, ld, size, m);
    hide Covers, Addr, Reg;
    var m' := m + 1;
    forall n: nat | n < |t.rows|
      ensures AddedAt(t, ld, regs, before, after, m', n)
    {
      assert AddedAt(t, ld, regs, before, mid, m, n);
    }
  }

  lemma {:induction false} AddTosRun(t: Tile, x: Box, ld: int, size: nat, shared: seq<int>, p: Core, m: nat)
    requires Covers(t, x, ld, size) && |p.c| == size && m <= |t.rows|
    ensures var p' := Solo(AddTos(t, ld)[..m], shared, p);
            p'.regs == p.regs && AddedUpTo(t, ld, p.regs, p.c, p'.c, m)
  {
    if m > 0 {
      AddTosRun(t, x, ld, size, shared, p, m - 1);
      SoloNext(AddTos(t, ld), m - 1, shared, p);
      assert AddTos(t, ld)[m - 1] == AddTo(Addr(t, ld, m - 1), m - 1);
      hide Addr, Solo, Covers, AddTos, Reg, AddedUpTo, ValueAt, Put;
      AddedMore(t, x, ld, size, p.regs, p.c, Solo(AddTos(t, ld)[..m - 1], shared, p).c, m - 1);
    }
  }

  /** Cleared registers end with the sums of their terms. */
  lemma FreshSums(N: nat, terms: seq<Action>, shared: seq<int>, p: Core)
    requires OnlyTerms(terms)
    ensures
      var p2 := Solo(Clears(N) + terms, shared, p);
      p2.c == p.c && forall n: nat :: n < N ==> Reg(p2.regs, n) == SumOf(terms, shared, n)
  {
    var f := Clears(N);
    SoloBoth(f, terms, shared, p);
    ClearsRun(N, shared, p, N);
    assert f[..N] == f;
    TermsRun(terms, shared, Solo(f, shared, p));
  }

  lemma FreshSplit(t: Tile, ld: int, terms: seq<Action>, shared: seq<int>, p: Core)
    requires |t.rows| == |t.cols|
    ensures var g := AddTos(t, ld);
            && g[..|t.rows|] == g
            && Solo(FreshProgram(t, ld, terms), shared, p) == Solo(g, shared, Solo(Clears(|t.rows|) + terms, shared, p))
  {
    var f, g := Clears(|t.rows|), AddTos(t, ld);
    assert f + (terms + g) == f + terms + g;
    SoloBoth(f + terms, g, shared, p);
  }

  lemma FreshGained(t: Tile, terms: seq<Action>, x: Box, site: Site, before: seq<int>, after: seq<int>, regs: Registers)
    requires Covers(t, x, site.ld, site.size) && Computes(terms, t, x, site) && |before| == site.size
    requires AddedUpTo(t, site.ld, regs, before, after, |t.rows|)
    requires forall n: nat :: n < |t.rows| ==> Reg(regs, n) == SumOf(terms, site.shared, n)
    ensures AllGained(t, before, after, x, site)
  {
    assert |t.rows| == |t.cols|;
    hide Addr, Reg, SumOf, Dot, Covers, Computes, NoCell;
    forall n: nat | n < |t.rows|
      ensures Gained(t, n, before, after, x, site)
    {
      FreshFacts(t, terms, x, site, n);
      assert AddedAt(t, site.ld, regs, before, after, |t.rows|, n);
    }
  }

  lemma FreshRun(t: Tile, terms: seq<Action>, x: Box, site: Site, p: Core)
    requires Covers(t, x, site.ld, site.size) && Computes(terms, t, x, site) && |p.c| == site.size
    ensures AllGained(t, p.c, Solo(FreshProgram(t, site.ld, terms), site.shared, p).c, x, site)
  {
    assert |t.rows| == |t.cols| && OnlyTerms(terms);
    hide *;
    var p2 := Solo(Clears(|t.rows|) + terms, site.shared, p);
    FreshSplit(t, site.ld, terms, site.shared, p);
    FreshSums(|t.rows|, terms, site.shared, p);
    AddTosRun(t, x, site.ld, site.size, site.shared, p2, |t.rows|);
    FreshGained(t, terms, x, site, p.c, Solo(AddTos(t, site.ld), site.shared, p2).c, p2.regs);
  }

  lemma FreshFacts(t: Tile, terms: seq<Action>, x: Box, site: Site, n: nat)
    requires Covers(t, x, site.ld, site.size) && Computes(terms, t, x, site) && n < |t.rows|
    ensures 0 <= Addr(t, site.ld, n) < site.size && SumsTo(terms, t, x, site, n)
  {
    hide SumsTo;
    assert CellIn(t, n, x, site.ld, site.size);
  }

  lemma FreshAdds(t: Tile, terms: seq<Action>, x: Box, site: Site)
    requires Covers(t, x, site.ld, site.size) && Computes(terms, t, x, site)
    requires BoxCells(site, x) && TermsWork(terms, site.bound)
    ensures AddsBox(FreshProgram(t, site.ld, terms), site, x)
  {
    TileCellsIn(t, x, site);
    FreshWorks(t, site.ld, terms, site.cells, site.bound);
    var prog := FreshProgram(t, site.ld, terms);
    forall p: Core | |p.c| == site.size
      ensures AddsFrom(prog, site, x, p)
    {
      FreshRun(t, terms, x, site, p);
      hide Covers, Computes, FreshProgram, Solo, AllGained, Adds;
      TileDone(t, p.c, Solo(prog, site.shared, p).c, x, site);
    }
  }

  // ---------- what tiles touch ----------

  predicate TermsWork(terms: seq<Action>, bound: nat) {
    OnlyTerms(terms) && forall k :: 0 <= k < |terms| && terms[k].SharedTerm? ==> terms[k].addr < bound
  }

  lemma TileCellsIn(t: Tile, x: Box, site: Site)
    requires Covers(t, x, site.ld, site.size) && BoxCells(site, x)
    ensures CellsIn(t, site.ld, site.cells)
  {
    forall n: nat | n < |t.rows|
      ensures Addr(t, site.ld, n) in site.cells
    {
      assert CellIn(t, n, x, site.ld, site.size);
      assert Strided.Cell(0, site.ld, t.rows[n], t.cols[n]) in site.cells;
    }
  }

  ghost predicate CellsIn(t: Tile, ld: int, cells: set<int>)
    requires |t.rows| == |t.cols|
  {
    forall n: nat :: n < |t.rows| ==> Addr(t, ld, n) in cells
  }

  predicate TermBounded(term: (nat, int) -> Action, n: nat, k: int, bound: nat) {
    term(n, k).SharedTerm? ==> term(n, k).addr < bound
  }

  /** The terms of a tile read the shared array where each of them may. */
  lemma {:induction false} TermsStay(N: nat, W: nat, ks: seq<int>, m: nat, term: (nat, int) -> Action, lo: int,
                                     hi: int, bound: nat)
    requires W > 0 && |ks| == m * W && TermOf(term) && forall u :: 0 <= u < |ks| ==> lo <= ks[u] < hi
    requires forall n: nat, k: int :: n < N && lo <= k < hi ==> TermBounded(term, n, k, bound)
    ensures TermsWork(Terms(N, W, ks, term), bound)
    decreases m
  {
    if m > 0 {
      MulDistributes(m - 1, 1, W);
      MulMonotone(0, m - 1, W);
      GroupStays(N, W, ks[..W], term, lo, hi, bound);
      hide Group, TermOf;
      TermsStay(N, W, ks[W..], m - 1, term, lo, hi, bound);
      TermsWorkBoth(Group(N, W, ks[..W], term), Terms(N, W, ks[W..], term), bound);
    }
  }

  lemma TermsWorkBoth(f: seq<Action>, g: seq<Action>, bound: nat)
    requires TermsWork(f, bound) && TermsWork(g, bound)
    ensures TermsWork(f + g, bound)
  {
  }

  lemma GroupStays(N: nat, W: nat, ks: seq<int>, term: (nat, int) -> Action, lo: int, hi: int, bound: nat)
    requires W > 0 && |ks| == W && TermOf(term) && forall u :: 0 <= u < |ks| ==> lo <= ks[u] < hi
    requires forall n: nat, k: int :: n < N && lo <= k < hi ==> TermBounded(term, n, k, bound)
    ensures TermsWork(Group(N, W, ks, term), bound)
  {
    GroupTerms(N, W, ks, term);
    forall n | 0 <= n < |Group(N, W, ks, term)| && Group(N, W, ks, term)[n].SharedTerm?
      ensures Group(N, W, ks, term)[n].addr < bound
    {
      GroupAt(N, W, ks, term, n);
      var r: nat := n / W;
      assert n == r * W + n % W;
      if N <= r {
        MulMonotone(N, r, W);
      }
      assert TermBounded(term, r, ks[n % W], bound);
    }
  }

  lemma TileWorks(t: Tile, ld: int, loads: seq<nat>, terms: seq<Action>, saves: seq<nat>, cells: set<int>, bound: nat)
    requires |t.rows| == |t.cols| && CellsIn(t, ld, cells) && Names(loads, |t.rows|) && Names(saves, |t.rows|)
    requires TermsWork(terms, bound)
    ensures Works(TileProgram(t, ld, loads, terms, saves), cells, bound)
  {
    hide Addr;
    assert Works(Loads(t, ld, loads), cells, bound);
    assert Works(terms, cells, bound);
    assert Works(Saves(t, ld, saves), cells, bound);
    hide Works;
    WorksBoth(terms, Saves(t, ld, saves), cells, bound);
    WorksBoth(Loads(t, ld, loads), terms + Saves(t, ld, saves), cells, bound);
  }

  lemma FreshWorks(t: Tile, ld: int, terms: seq<Action>, cells: set<int>, bound: nat)
    requires |t.rows| == |t.cols| && CellsIn(t, ld, cells) && TermsWork(terms, bound)
    ensures Works(FreshProgram(t, ld, terms), cells, bound)
  {
    hide Addr;
    assert Works(Clears(|t.rows|), cells, bound);
    assert Works(terms, cells, bound);
    assert Works(AddTos(t, ld), cells, bound);
    hide Works;
    WorksBoth(terms, AddTos(t, ld), cells, bound);
    WorksBoth(Clears(|t.rows|), terms + AddTos(t, ld), cells, bound);
  }

  // ---------- whole rows ----------

  /** As AddsBox, for the whole product in a set of rows. */
  ghost predicate AddsInRows(prog: seq<Action>, site: Site, rows: set<int>) {
    && Works(prog, site.cells, site.bound)
    && forall p: Core :: |p.c| == site.size ==> AddsRowsFrom(prog, site, rows, p)
  }

  ghost predicate AddsRowsFrom(prog: seq<Action>, site: Site, rows: set<int>, p: Core) {
    AddsInto(p.c, Solo(prog, site.shared, p).c, site.a, site.b, site.ld, rows, site.ld, site.ld)
  }

  lemma BoxIsRows(prog: seq<Action>, site: Site, lo: int, hi: int)
    requires AddsBox(prog, site, Box(lo, hi, 0, site.ld, 0, site.ld))
    ensures AddsInRows(prog, site, Rows(lo, hi))
  {
    forall p: Core | |p.c| == site.size
      ensures AddsRowsFrom(prog, site, Rows(lo, hi), p)
    {
      FromBox(prog, site, Box(lo, hi, 0, site.ld, 0, site.ld), p);
      IntoBox(p.c, Solo(prog, site.shared, p).c, site.a, site.b, site.ld, lo, hi, site.ld, site.ld);
    }
  }

  lemma NoRows(site: Site)
    ensures AddsInRows([], site, {})
  {
    forall p: Core | |p.c| == site.size
      ensures AddsRowsFrom([], site, {}, p)
    {
      IntoNothing(p.c, site.a, site.b, site.ld, site.ld, site.ld);
    }
  }

  lemma FromRows(prog: seq<Action>, site: Site, rows: set<int>, p: Core)
    requires AddsInRows(prog, site, rows) && |p.c| == site.size
    ensures AddsInto(p.c, Solo(prog, site.shared, p).c, site.a, site.b, site.ld, rows, site.ld, site.ld)
  {
    assert AddsRowsFrom(prog, site, rows, p);
    hide AddsInto, Solo, Works;
  }

  lemma BothRowsFrom(f: seq<Action>, g: seq<Action>, site: Site, r: set<int>, r': set<int>, p: Core)
    requires r !! r' && AddsInRows(f, site, r) && AddsInRows(g, site, r') && |p.c| == site.size
    ensures AddsRowsFrom(f + g, site, r + r', p)
  {
    hide AddsInto, Solo, AddsInRows;
    FromRows(f, site, r, p);
    FromRows(g, site, r', Solo(f, site.shared, p));
    SoloBoth(f, g, site.shared, p);
    IntoBoth(p.c, Solo(f, site.shared, p).c, Solo(f + g, site.shared, p).c, site.a, site.b, site.ld, r, r', site.ld,
             site.ld);
  }

  lemma ThenMoreRows(f: seq<Action>, g: seq<Action>, site: Site, r: set<int>, r': set<int>)
    requires r !! r' && AddsInRows(f, site, r) && AddsInRows(g, site, r')
    ensures AddsInRows(f + g, site, r + r')
  {
    WorksBoth(f, g, site.cells, site.bound);
    hide AddsRowsFrom, Works;
    forall p: Core | |p.c| == site.size
      ensures AddsRowsFrom(f + g, site, r + r', p)
    {
      BothRowsFrom(f, g, site, r, r', p);
    }
  }

  lemma IntoSame(before: seq<int>, s1: seq<int>, s2: seq<int>, a: View, b: View, ld: int, rows: set<int>, n: int,
                 p: int)
    requires AddsInto(before, s1, a, b, ld, rows, n, p) && AddsInto(before, s2, a, b, ld, rows, n, p)
    ensures s1 == s2
  {
    hide ShareOfRows;
  }

  /** Two memories that have gained the same rows are the same: a method that adds these rows leaves
      what the program leaves. */
  lemma SameEffect(prog: seq<Action>, site: Site, rows: set<int>, p: Core, after: seq<int>)
    requires AddsInRows(prog, site, rows) && |p.c| == site.size
    requires AddsInto(p.c, after, site.a, site.b, site.ld, rows, site.ld, site.ld)
    ensures after == Solo(prog, site.shared, p).c
  {
    hide *;
    FromRows(prog, site, rows, p);
    IntoSame(p.c, after, Solo(prog, site.shared, p).c, site.a, site.b, site.ld, rows, site.ld, site.ld);
  }

  // ---------- registers loaded and stored in their own order ----------

  function InTurn(N: nat): seq<nat> { seq(N, n => n) }

  lemma AllNamed(N: nat)
    ensures Names(InTurn(N), N)
  {
    forall n: nat | n < N
      ensures Named(InTurn(N), n)
    {
      assert InTurn(N)[n] == n;
    }
  }

  function Nat(i: int): nat { if i < 0 then 0 else i }

  /** term(n, k) reads A and B only, and multiplies for the cell of register n. */
  predicate PlainTerm(term: (nat, int) -> Action, n: nat, k: int, a: View, b: View, i: int, j: int) {
    term(n, k) == Term(n, a.At(i, k), b.At(k, j))
  }

  ghost predicate PlainTerms(term: (nat, int) -> Action, t: Tile, a: View, b: View)
    requires |t.rows| == |t.cols|
  {
    && TermOf(term)
    && forall n: nat, k: int :: n < |t.rows| ==> PlainTerm(term, n, k, a, b, t.rows[n], t.cols[n])
  }

  lemma PlainMultiplies(t: Tile, term: (nat, int) -> Action, site: Site, n: nat, lo: int, hi: int)
    requires |t.rows| == |t.cols| && n < |t.rows| && PlainTerms(term, t, site.a, site.b)
    ensures Multiplies(term, site.shared, n, site.a, site.b, t.rows[n], t.cols[n], lo, hi)
  {
    forall k | lo <= k < hi
      ensures Product(term(n, k), site.shared) == site.a.At(t.rows[n], k) * site.b.At(k, t.cols[n])
    {
      assert PlainTerm(term, n, k, site.a, site.b, t.rows[n], t.cols[n]);
    }
  }

  lemma PlainSums(t: Tile, W: nat, ks: seq<int>, m: nat, term: (nat, int) -> Action, site: Site, n: nat, x: Box,
                  up: bool)
    requires |t.rows| == |t.cols| && n < |t.rows| && W > 0 && |ks| == m * W && PlainTerms(term, t, site.a, site.b)
    requires x.k0 <= x.k1 && ks == if up then Up(x.k0, x.k1, 1) else Down(x.k1 - 1, x.k0, 1)
    ensures SumsTo(Terms(|t.rows|, W, ks, term), t, x, site, n)
  {
    hide Terms, Dot, SumOf, SumOver, TermOf, Multiplies, Up, Down;
    PlainMultiplies(t, term, site, n, x.k0, x.k1);
    TermsSum(|t.rows|, W, ks, m, term, site.shared, n);
    if up {
      SumUp(x.k0, x.k1, term, site.shared, n, site.a, site.b, t.rows[n], t.cols[n]);
    } else {
      SumDown(x.k0, x.k1, term, site.shared, n, site.a, site.b, t.rows[n], t.cols[n]);
    }
  }

  lemma PlainComputes(t: Tile, W: nat, ks: seq<int>, m: nat, term: (nat, int) -> Action, site: Site, x: Box, up: bool)
    requires |t.rows| == |t.cols| && |t.rows| > 0 && W > 0 && |ks| == m * W && PlainTerms(term, t, site.a, site.b)
    requires x.k0 <= x.k1 && ks == if up then Up(x.k0, x.k1, 1) else Down(x.k1 - 1, x.k0, 1)
    ensures Computes(Terms(|t.rows|, W, ks, term), t, x, site)
  {
    TermsSum(|t.rows|, W, ks, m, term, site.shared, 0);
    hide Terms, SumsTo, PlainTerms, OnlyTerms, Up, Down;
    forall n: nat | n < |t.rows|
      ensures SumsTo(Terms(|t.rows|, W, ks, term), t, x, site, n)
    {
      PlainSums(t, W, ks, m, term, site, n, x, up);
    }
  }

  lemma {:induction false} PlainWork(t: Tile, W: nat, ks: seq<int>, m: nat, term: (nat, int) -> Action, a: View,
                                     b: View)
    requires |t.rows| == |t.cols| && W > 0 && |ks| == m * W && PlainTerms(term, t, a, b)
    ensures TermsWork(Terms(|t.rows|, W, ks, term), 0)
    decreases m
  {
    if m > 0 {
      MulDistributes(m - 1, 1, W);
      MulMonotone(0, m - 1, W);
      PlainGroup(t, W, ks[..W], term, a, b);
      hide Group, PlainTerms;
      PlainWork(t, W, ks[W..], m - 1, term, a, b);
      TermsWorkBoth(Group(|t.rows|, W, ks[..W], term), Terms(|t.rows|, W, ks[W..], term), 0);
    }
  }

  lemma PlainGroup(t: Tile, W: nat, ks: seq<int>, term: (nat, int) -> Action, a: View, b: View)
    requires |t.rows| == |t.cols| && W > 0 && |ks| == W && PlainTerms(term, t, a, b)
    ensures TermsWork(Group(|t.rows|, W, ks, term), 0)
  {
    var N := |t.rows|;
    GroupTerms(N, W, ks, term);
    forall n | 0 <= n < |Group(N, W, ks, term)|
      ensures !Group(N, W, ks, term)[n].SharedTerm?
    {
      GroupAt(N, W, ks, term, n);
      var r: nat := n / W;
      assert n == r * W + n % W;
      if N <= r {
        MulMonotone(N, r, W);
      }
      assert PlainTerm(term, r, ks[n % W], a, b, t.rows[r], t.cols[r]);
    }
  }

  /** A register tile whose terms read A and B only. */
  lemma PlainTile(t: Tile, loads: seq<nat>, saves: seq<nat>, W: nat, ks: seq<int>, m: nat, term: (nat, int) -> Action,
                  x: Box, site: Site, up: bool)
    requires Covers(t, x, site.ld, site.size) && |t.rows| > 0 && Names(loads, |t.rows|) && Names(saves, |t.rows|)
    requires BoxCells(site, x) && W > 0 && |ks| == m * W && PlainTerms(term, t, site.a, site.b) && site.bound == 0
    requires x.k0 <= x.k1 && ks == if up then Up(x.k0, x.k1, 1) else Down(x.k1 - 1, x.k0, 1)
    ensures AddsBox(TileProgram(t, site.ld, loads, Terms(|t.rows|, W, ks, term), saves), site, x)
  {
    assert |t.rows| == |t.cols|;
    hide Terms, Covers, Computes, TermsWork, Names, BoxCells, PlainTerms, AddsBox;
    PlainComputes(t, W, ks, m, term, site, x, up);
    PlainWork(t, W, ks, m, term, site.a, site.b);
    TileAdds(t, loads, Terms(|t.rows|, W, ks, term), saves, x, site);
  }
}
