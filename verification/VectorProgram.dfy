/** riscv-tests/mt: the vector additions, run by ncores cores whose statements interleave.  C is the
    vector z, which may also be one of the vectors added, or both. */
module VectorProgram {
  import opened Arithmetic
  import opened Team
  import opened CorePrograms
  import opened Kernels
  import opened CellPrograms
  import opened VectorAdd
  import Barrier

  /** A vector that is added: z itself, or one that nobody writes. */
  datatype Operand = Z | Other(s: seq<int>)

  function OperandAt(x: Operand, q: int, v: int): int { if x.Z? then v else ValueAt(x.s, q) }

  function Sum(x: Operand, y: Operand): Update { (q: int, v: int) => OperandAt(x, q, v) + OperandAt(y, q, v) }

  /** z[q] = x[q] + y[q] */
  function AddBlock(x: Operand, y: Operand): int -> seq<Action> {
    (q: int) =>
      if x.Z? && y.Z? then [Load(0, q), AddTo(q, 0)]
      else if x.Z? then [Load(0, q), Term(0, ValueAt(y.s, q), 1), Save(q, 0)]
      else if y.Z? then [Load(0, q), Term(0, ValueAt(x.s, q), 1), Save(q, 0)]
      else [Clear(0), Term(0, ValueAt(x.s, q), 1), Term(0, ValueAt(y.s, q), 1), Save(q, 0)]
  }

  lemma OneStep(a: Action, shared: seq<int>, p: Core)
    ensures Solo([a], shared, p) == Do(a, shared, p)
  {
    assert [a][..0] == [];
    assert Solo([a], shared, p) == Do(a, shared, Solo([], shared, p));
    hide Do;
  }

  lemma NextStep(prog: seq<Action>, a: Action, shared: seq<int>, p: Core)
    ensures Solo(prog + [a], shared, p) == Do(a, shared, Solo(prog, shared, p))
  {
    assert (prog + [a])[..|prog|] == prog;
    hide Do;
  }

  lemma TwoSteps(a: Action, b: Action, shared: seq<int>, p: Core)
    ensures Solo([a, b], shared, p) == Do(b, shared, Do(a, shared, p))
  {
    hide Do, Solo;
    OneStep(a, shared, p);
    NextStep([a], b, shared, p);
    assert [a] + [b] == [a, b];
  }

  lemma ThreeSteps(a: Action, b: Action, c: Action, shared: seq<int>, p: Core)
    ensures Solo([a, b, c], shared, p) == Do(c, shared, Do(b, shared, Do(a, shared, p)))
  {
    hide Do, Solo;
    TwoSteps(a, b, shared, p);
    NextStep([a, b], c, shared, p);
    assert [a, b] + [c] == [a, b, c];
  }

  lemma FourSteps(a: Action, b: Action, c: Action, d: Action, shared: seq<int>, p: Core)
    ensures Solo([a, b, c, d], shared, p) == Do(d, shared, Do(c, shared, Do(b, shared, Do(a, shared, p))))
  {
    hide Do, Solo;
    ThreeSteps(a, b, c, shared, p);
    NextStep([a, b, c], d, shared, p);
    assert [a, b, c] + [d] == [a, b, c, d];
  }

  lemma AddWritesFrom(x: Operand, y: Operand, q: int, shared: seq<int>, p: Core)
    requires 0 <= q < |p.c|
    ensures WritesFrom(AddBlock(x, y), q, Sum(x, y), shared, p)
  {
    hide Solo;
    if x.Z? && y.Z? {
      TwoSteps(Load(0, q), AddTo(q, 0), shared, p);
    } else if x.Z? {
      ThreeSteps(Load(0, q), Term(0, ValueAt(y.s, q), 1), Save(q, 0), shared, p);
    } else if y.Z? {
      ThreeSteps(Load(0, q), Term(0, ValueAt(x.s, q), 1), Save(q, 0), shared, p);
    } else {
      FourSteps(Clear(0), Term(0, ValueAt(x.s, q), 1), Term(0, ValueAt(y.s, q), 1), Save(q, 0), shared, p);
    }
  }

  lemma AddWrites(x: Operand, y: Operand, q: int, size: nat)
    requires 0 <= q < size
    ensures Writes(AddBlock(x, y), q, Sum(x, y), size)
  {
    assert Works(AddBlock(x, y)(q), {q}, 0);
    hide Works, Solo, AddBlock;
    forall shared: seq<int>, p: Core | |p.c| == size
      ensures WritesFrom(AddBlock(x, y), q, Sum(x, y), shared, p)
    {
      AddWritesFrom(x, y, q, shared, p);
    }
  }

  // ---------- the lists of the cores ----------

  predicate Increasing(list: seq<int>) { forall k, l :: 0 <= k < l < |list| ==> list[k] < list[l] }

  predicate Between(list: seq<int>, lo: int, hi: int) { forall k :: 0 <= k < |list| ==> lo <= list[k] < hi }

  lemma IncreasingBoth(f: seq<int>, g: seq<int>, lo: int, mid: int, hi: int)
    requires Increasing(f) && Increasing(g) && Between(f, lo, mid) && Between(g, mid, hi) && lo <= mid <= hi
    ensures Increasing(f + g) && Between(f + g, lo, hi)
  {
  }

  lemma ElementsBoth(f: seq<int>, g: seq<int>)
    ensures Elements(f + g) == Elements(f) + Elements(g)
  {
  }

  /** A loop upwards in steps takes the indices in its turn. */
  lemma {:induction false} UpElements(lo: int, hi: int, step: nat, q: int)
    requires step > 0
    ensures q in Up(lo, hi, step) <==> lo <= q < hi && (q - lo) % step == 0
    ensures Increasing(Up(lo, hi, step)) && (lo <= hi ==> Between(Up(lo, hi, step), lo, hi))
    decreases hi - lo
  {
    if lo < hi {
      UpElements(lo + step, hi, step, q);
      UpLater(lo + step, hi, step);
      if lo < q {
        NextMultiple(q - lo, step);
      }
      assert Up(lo, hi, step) == [lo] + Up(lo + step, hi, step);
      hide Up;
      if lo <= q < lo + step && q != lo {
        RemainderIs(q - lo, step, 0, q - lo);
      } else if q == lo {
        RemainderIs(0, step, 0, 0);
      }
    }
  }

  lemma {:induction false} UpLater(lo: int, hi: int, step: nat)
    requires step > 0
    ensures forall k :: 0 <= k < |Up(lo, hi, step)| ==> lo <= Up(lo, hi, step)[k] < hi
    decreases hi - lo
  {
    if lo < hi {
      UpLater(lo + step, hi, step);
    }
  }

  lemma NextMultiple(d: nat, step: nat)
    requires step > 0
    ensures d >= step ==> (d - step) % step == d % step
  {
    if d >= step {
      Quotient(d - step, step);
      RemainderIs(d, step, (d - step) / step + 1, (d - step) % step);
    }
  }

  /** vvadd3: the slice of the core. */
  function Vvadd3List(core: nat, ncores: nat, n: nat): seq<int>
    requires 0 < ncores <= n
  {
    Up(core * (n / ncores), core * (n / ncores) + n / ncores, 1)
  }

  lemma SliceList(core: nat, k: nat)
    ensures Elements(Up(core * k, core * k + k, 1)) == Slice(core, k) && Increasing(Up(core * k, core * k + k, 1))
    ensures Between(Up(core * k, core * k + k, 1), core * k, core * k + k)
  {
    forall q: int
      ensures q in Up(core * k, core * k + k, 1) <==> q in Slice(core, k)
    {
      UpElements(core * k, core * k + k, 1, q);
    }
    UpElements(core * k, core * k + k, 1, 0);
  }

  /** vvadd0: the slice, then the core's turns among what is left over. */
  function Vvadd0List(core: nat, ncores: nat, n: nat): seq<int>
    requires 0 < ncores <= n
  {
    Quotient(n, ncores);
    Up(core * (n / ncores), core * (n / ncores) + n / ncores, 1) + Up(LeftStart(n, n / ncores) + core, n, ncores)
  }

  lemma TurnsList(lo: nat, n: nat, core: nat, ncores: nat)
    requires core < ncores
    ensures Elements(Up(lo + core, n, ncores)) == Turns(lo, n, core, ncores)
    ensures Increasing(Up(lo + core, n, ncores)) && (lo <= n ==> Between(Up(lo + core, n, ncores), lo, n))
  {
    forall q: int
      ensures q in Up(lo + core, n, ncores) <==> lo <= q < n && VectorAdd.InTurn(lo, q, core, ncores)
    {
      UpElements(lo + core, n, ncores, q);
      if lo <= q < lo + core {
        RemainderIs(q - lo, ncores, 0, q - lo);
      } else if lo + core <= q {
        ShiftedTurn(q - lo - core, core, ncores);
      }
    }
    UpElements(lo + core, n, ncores, 0);
    UpLater(lo + core, n, ncores);
    hide Up;
    forall q: int
      ensures q in Up(lo + core, n, ncores) <==> q in Turns(lo, n, core, ncores)
    {
    }
  }

  lemma ShiftedTurn(d: nat, core: nat, ncores: nat)
    requires core < ncores
    ensures d % ncores == 0 <==> (d + core) % ncores == core
  {
    var t, r := d / ncores, d % ncores;
    Quotient(d, ncores);
    if r + core < ncores {
      RemainderIs(d + core, ncores, t, r + core);
    } else {
      MulDistributes(t, 1, ncores);
      RemainderIs(d + core, ncores, t + 1, r + core - ncores);
    }
  }

  lemma Vvadd0Elements(core: nat, ncores: nat, n: nat)
    requires core < ncores <= n
    ensures Elements(Vvadd0List(core, ncores, n)) == Vvadd0Mine(core, ncores, n)
      && Increasing(Vvadd0List(core, ncores, n))
  {
    var k := n / ncores;
    Quotient(n, ncores);
    LeftOver(n, ncores);
    SliceFits(core, ncores, n);
    MulMonotone(core + 1, ncores, k);
    SliceList(core, k);
    TurnsList(LeftStart(n, k), n, core, ncores);
    hide Up, Slice, Turns;
    ElementsBoth(Up(core * k, core * k + k, 1), Up(LeftStart(n, k) + core, n, ncores));
    assert Between(Up(core * k, core * k + k, 1), core * k, LeftStart(n, k));
    IncreasingBoth(Up(core * k, core * k + k, 1), Up(LeftStart(n, k) + core, n, ncores), core * k, LeftStart(n, k), n);
  }

  /** vvadd1: in every round two blocks of four. */
  function Vvadd1List(i: nat, ncores: nat, n: nat): seq<int>
    requires ncores > 0
    decreases n - i
  {
    if i >= n then [] else TwoFours(i, ncores) + Vvadd1List(i + 8 * ncores, ncores, n)
  }

  function TwoFours(i: nat, ncores: nat): seq<int> {
    [i, i + 1, i + 2, i + 3, i + ncores * 4, i + ncores * 4 + 1, i + ncores * 4 + 2, i + ncores * 4 + 3]
  }

  lemma TwoFoursElements(i: nat, ncores: nat)
    requires ncores > 0
    ensures Elements(TwoFours(i, ncores)) == Rows(i, i + 4) + Rows(i + ncores * 4, i + ncores * 4 + 4)
    ensures Increasing(TwoFours(i, ncores)) && Between(TwoFours(i, ncores), i, i + 8 * ncores)
  {
  }

  predicate NotBefore(list: seq<int>, lo: int) { forall k :: 0 <= k < |list| ==> lo <= list[k] }

  /** The list has what the core adds in its rounds but the first t. */
  ghost predicate FromRound(core: nat, ncores: nat, n: nat, t: nat, list: seq<int>)
    requires ncores > 0
  {
    && Vvadd1Mine(core, ncores, n) == Fours(core, ncores, t * (8 * ncores)) + Elements(list)
    && Increasing(list) && NotBefore(list, core * 4 + t * (8 * ncores))
  }

  lemma OneMoreRound(core: nat, ncores: nat, n: nat, t: nat, rest: seq<int>)
    requires core < ncores && FromRound(core, ncores, n, t + 1, rest)
    ensures FromRound(core, ncores, n, t, TwoFours(core * 4 + t * (8 * ncores), ncores) + rest)
  {
    hide Fours, Rows, Rounds, Vvadd1Mine, TwoFours;
    var i := core * 4 + t * (8 * ncores);
    Vvadd1Step(core, ncores, t);
    TwoFoursElements(i, ncores);
    ElementsBoth(TwoFours(i, ncores), rest);
    hide Elements;
    TwoFoursFirst(TwoFours(i, ncores), rest, i + 8 * ncores, i);
  }

  lemma TwoFoursFirst(f: seq<int>, g: seq<int>, mid: int, lo: int)
    requires Increasing(f) && Between(f, lo, mid) && Increasing(g) && NotBefore(g, mid) && lo <= mid
    ensures Increasing(f + g) && NotBefore(f + g, lo)
  {
  }

  lemma {:induction false} Vvadd1From(core: nat, ncores: nat, n: nat, t: nat)
    requires core < ncores && t <= Rounds(core, ncores, n)
    ensures FromRound(core, ncores, n, t, Vvadd1List(core * 4 + t * (8 * ncores), ncores, n))
    decreases Rounds(core, ncores, n) - t
  {
    hide Rounds, FromRound, TwoFours;
    InRounds(core, ncores, n, t);
    if t < Rounds(core, ncores, n) {
      MulDistributes(t, 1, 8 * ncores);
      Vvadd1From(core, ncores, n, t + 1);
      OneMoreRound(core, ncores, n, t, Vvadd1List(core * 4 + t * (8 * ncores) + 8 * ncores, ncores, n));
    } else {
      NoMoreRounds(core, ncores, n);
    }
  }

  lemma NoMoreRounds(core: nat, ncores: nat, n: nat)
    requires ncores > 0
    ensures FromRound(core, ncores, n, Rounds(core, ncores, n), [])
  {
    hide Rounds, Fours;
    assert Elements([]) == {};
  }

  lemma Vvadd1Elements(core: nat, ncores: nat, n: nat)
    requires core < ncores
    ensures Elements(Vvadd1List(core * 4, ncores, n)) == Vvadd1Mine(core, ncores, n)
      && Increasing(Vvadd1List(core * 4, ncores, n))
  {
    Vvadd1From(core, ncores, n, 0);
    NoFours(core, ncores);
  }

  // ---------- all cores ----------

  /** List t goes through set t once, within the vectors; the sets have nothing in common. */
  ghost predicate Dealt(lists: seq<seq<int>>, sets: seq<set<int>>, size: nat) {
    && |lists| == |sets| && Disjoint(sets)
    && forall t :: 0 <= t < |lists| ==> DealtTo(lists[t], sets[t], size)
  }

  ghost predicate DealtTo(list: seq<int>, mine: set<int>, size: nat) {
    Elements(list) == mine && Increasing(list) && Within(mine, size) && forall q :: q in mine ==> 0 <= q
  }

  function VectorPrograms(lists: seq<seq<int>>, x: Operand, y: Operand): Programs {
    seq(|lists|, t requires 0 <= t < |lists| => Each(lists[t], AddBlock(x, y)))
  }

  lemma VectorTeam(lists: seq<seq<int>>, sets: seq<set<int>>, x: Operand, y: Operand, size: nat)
    requires Dealt(lists, sets, size)
    ensures CellTeam(VectorPrograms(lists, x, y), lists, AddBlock(x, y), Sum(x, y), size)
  {
    hide Writes, AddBlock, Each;
    assert forall t :: 0 <= t < |lists| ==> DealtTo(lists[t], sets[t], size);
    assert AllElements(lists) == sets;
    forall t | 0 <= t < |lists|
      ensures CellCore(VectorPrograms(lists, x, y)[t], lists[t], AddBlock(x, y), Sum(x, y), size)
    {
      forall q | q in lists[t]
        ensures Writes(AddBlock(x, y), q, Sum(x, y), size)
      {
        assert q in Elements(lists[t]);
        assert q in sets[t];
        WithinAt(sets[t], size, q);
        AddWrites(x, y, q, size);
      }
    }
  }

  /** The cells with an owner hold the sums of the vectors as they were, and the others what they held. */
  ghost predicate VectorAdded(before: seq<int>, after: seq<int>, x: Operand, y: Operand, sets: seq<set<int>>) {
    && |after| == |before|
    && forall q :: 0 <= q < |after| ==>
         after[q] == if HasOwner(sets, q) then OperandAt(x, q, before[q]) + OperandAt(y, q, before[q]) else before[q]
  }

  lemma UpdatedIsAdded(before: seq<int>, after: seq<int>, x: Operand, y: Operand, lists: seq<seq<int>>,
                       sets: seq<set<int>>)
    requires Dealt(lists, sets, |before|) && AllUpdated(before, after, lists, Sum(x, y))
    ensures VectorAdded(before, after, x, y, sets)
  {
    forall q | 0 <= q < |after|
      ensures HasOwner(sets, q) <==> InSome(lists, q)
    {
      OwnerIsList(lists, sets, |before|, q);
    }
  }

  lemma OwnerIsList(lists: seq<seq<int>>, sets: seq<set<int>>, size: nat, q: int)
    requires Dealt(lists, sets, size)
    ensures HasOwner(sets, q) <==> InSome(lists, q)
  {
    hide Within, Increasing;
    if InSome(lists, q) {
      var t: nat :| t < |lists| && q in lists[t];
      assert DealtTo(lists[t], sets[t], size);
      assert q in Elements(lists[t]);
      assert OnlyOwner(sets, q, t);
    }
    if HasOwner(sets, q) {
      var t: nat :| OnlyOwner(sets, q, t);
      assert DealtTo(lists[t], sets[t], size);
      assert q in Elements(lists[t]);
    }
  }

  /** In every interleaving, when all cores are done. */
  lemma VectorEveryRun(lists: seq<seq<int>>, sets: seq<set<int>>, x: Operand, y: Operand, s0: State, schedule: seq<nat>)
    requires Dealt(lists, sets, |s0.c|) && Started(VectorPrograms(lists, x, y), s0.shared, s0)
    ensures
      var s := Run(VectorPrograms(lists, x, y), s0, schedule);
      AllDone(VectorPrograms(lists, x, y), s) ==> VectorAdded(s0.c, s.c, x, y, sets)
  {
    hide Dealt, VectorPrograms, CellTeam, AllUpdated, VectorAdded, Barrier.Inv;
    VectorTeam(lists, sets, x, y, |s0.c|);
    CellsRun(VectorPrograms(lists, x, y), lists, AddBlock(x, y), Sum(x, y), s0, schedule);
    var s := Run(VectorPrograms(lists, x, y), s0, schedule);
    if AllDone(VectorPrograms(lists, x, y), s) {
      UpdatedIsAdded(s0.c, s.c, x, y, lists, sets);
    }
  }

  /** And if no core is starved, all cores come to an end. */
  lemma VectorFairRun(lists: seq<seq<int>>, sets: seq<set<int>>, x: Operand, y: Operand, s0: State, f: nat -> nat)
      returns (j: nat)
    requires Dealt(lists, sets, |s0.c|) && Started(VectorPrograms(lists, x, y), s0.shared, s0)
      && Barrier.Fair(f, |lists|)
    ensures
      var s := StateAt(VectorPrograms(lists, x, y), s0, f, j);
      AllDone(VectorPrograms(lists, x, y), s) && VectorAdded(s0.c, s.c, x, y, sets)
  {
    assert |VectorPrograms(lists, x, y)| == |lists|;
    hide Dealt, VectorPrograms, CellTeam, AllUpdated, VectorAdded, Barrier.Inv, Barrier.Fair;
    VectorTeam(lists, sets, x, y, |s0.c|);
    j := CellsFairRun(VectorPrograms(lists, x, y), lists, AddBlock(x, y), Sum(x, y), s0, f);
    UpdatedIsAdded(s0.c, StateAt(VectorPrograms(lists, x, y), s0, f, j).c, x, y, lists, sets);
  }

  function Before(x: Operand, z: seq<int>): seq<int> { if x.Z? then z else x.s }

  /** What a method leaves that has added a set of indices is what the statements of the core leave. */
  lemma VectorMethodIsProgram(
    list: seq<int>, mine: set<int>, x: Operand, y: Operand, shared: seq<int>, regs: Registers, before: seq<int>,
    after: seq<int>)
    requires DealtTo(list, mine, |before|) && Added(Before(x, before), Before(y, before), before, after, mine)
    ensures after == Solo(Each(list, AddBlock(x, y)), shared, Core(regs, before)).c
  {
    forall q | q in list
      ensures Writes(AddBlock(x, y), q, Sum(x, y), |before|)
    {
      assert q in Elements(list);
      WithinAt(mine, |before|, q);
      AddWrites(x, y, q, |before|);
    }
    hide Writes, Each, AddBlock, Solo;
    EachWrites(list, AddBlock(x, y), Sum(x, y), shared, Core(regs, before));
    SameUpdate(list, mine, x, y, before, after, Solo(Each(list, AddBlock(x, y)), shared, Core(regs, before)).c);
  }

  lemma SameUpdate(list: seq<int>, mine: set<int>, x: Operand, y: Operand, before: seq<int>, after: seq<int>,
                   after': seq<int>)
    requires Elements(list) == mine && Added(Before(x, before), Before(y, before), before, after, mine)
    requires Updated(before, after', list, Sum(x, y))
    ensures after == after'
  {
    assert forall q :: q in list <==> q in Elements(list);
  }

  function Vvadd3Lists(ncores: nat, n: nat): seq<seq<int>>
    requires 0 < ncores <= n
  {
    seq(ncores, core requires 0 <= core < ncores => Vvadd3List(core, ncores, n))
  }

  function Vvadd0Lists(ncores: nat, n: nat): seq<seq<int>>
    requires 0 < ncores <= n
  {
    seq(ncores, core requires 0 <= core < ncores => Vvadd0List(core, ncores, n))
  }

  function Vvadd1Lists(ncores: nat, n: nat): seq<seq<int>>
    requires 0 < ncores
  {
    seq(ncores, core requires 0 <= core < ncores => Vvadd1List(core * 4, ncores, n))
  }

  function Vvadd1Sets(ncores: nat, n: nat): seq<set<int>>
    requires 0 < ncores
  {
    seq(ncores, core requires 0 <= core < ncores => Vvadd1Mine(core, ncores, n))
  }

  /** vvadd3, over every interleaving: what lies in a slice is added once, and only that. */
  lemma Vvadd3EveryRun(ncores: nat, n: nat, x: Operand, y: Operand, s0: State, schedule: seq<nat>)
    requires 0 < ncores <= n <= |s0.c| && Started(VectorPrograms(Vvadd3Lists(ncores, n), x, y), s0.shared, s0)
    ensures
      var progs := VectorPrograms(Vvadd3Lists(ncores, n), x, y);
      var s := Run(progs, s0, schedule);
      AllDone(progs, s) ==> VectorAdded(s0.c, s.c, x, y, Slices(ncores, n / ncores))
  {
    Vvadd3Dealt(ncores, n, |s0.c|);
    hide Dealt, VectorPrograms, VectorAdded, Vvadd3Lists, Slices, Started;
    VectorEveryRun(Vvadd3Lists(ncores, n), Slices(ncores, n / ncores), x, y, s0, schedule);
  }

  lemma Vvadd3Dealt(ncores: nat, n: nat, size: nat)
    requires 0 < ncores <= n <= size
    ensures Dealt(Vvadd3Lists(ncores, n), Slices(ncores, n / ncores), size)
  {
    Quotient(n, ncores);
    var k := n / ncores;
    var lists, sets := Vvadd3Lists(ncores, n), Slices(ncores, k);
    forall t, u | 0 <= t < u < ncores
      ensures sets[t] !! sets[u]
    {
      MulMonotone(t + 1, u, k);
      MulDistributes(t, 1, k);
    }
    forall t | 0 <= t < ncores
      ensures DealtTo(lists[t], sets[t], size)
    {
      SliceList(t, k);
      SliceFits(t, ncores, n);
      MulMonotone(0, t, k);
    }
  }

  /** vvadd0, over every interleaving: what lies in a slice or is left over by its reckoning is added
      once, and only that. */
  lemma Vvadd0EveryRun(ncores: nat, n: nat, x: Operand, y: Operand, s0: State, schedule: seq<nat>)
    requires 0 < ncores <= n <= |s0.c| && Started(VectorPrograms(Vvadd0Lists(ncores, n), x, y), s0.shared, s0)
    ensures
      var progs := VectorPrograms(Vvadd0Lists(ncores, n), x, y);
      var s := Run(progs, s0, schedule);
      AllDone(progs, s) ==> VectorAdded(s0.c, s.c, x, y, Vvadd0Sets(ncores, n))
  {
    Vvadd0Dealt(ncores, n, |s0.c|);
    hide Dealt, VectorPrograms, VectorAdded, Vvadd0Lists, Vvadd0Sets, Started;
    VectorEveryRun(Vvadd0Lists(ncores, n), Vvadd0Sets(ncores, n), x, y, s0, schedule);
  }

  lemma Vvadd0Dealt(ncores: nat, n: nat, size: nat)
    requires 0 < ncores <= n <= size
    ensures Dealt(Vvadd0Lists(ncores, n), Vvadd0Sets(ncores, n), size)
  {
    LeftOver(n, ncores);
    var k := n / ncores;
    var lists, sets := Vvadd0Lists(ncores, n), Vvadd0Sets(ncores, n);
    forall t, u | 0 <= t < u < ncores
      ensures sets[t] !! sets[u]
    {
      SliceFits(t, ncores, n);
      SliceFits(u, ncores, n);
      MulMonotone(t + 1, ncores, k);
      MulMonotone(u + 1, ncores, k);
      MulMonotone(t + 1, u, k);
    }
    forall t | 0 <= t < ncores
      ensures DealtTo(lists[t], sets[t], size)
    {
      Vvadd0Elements(t, ncores, n);
      SliceFits(t, ncores, n);
      MulMonotone(0, t, k);
      hide Increasing, Elements, Vvadd0List;
    }
  }

  /** vvadd1, over every interleaving, on vectors that have the cells touched: every index below n is
      added once. */
  lemma Vvadd1EveryRun(ncores: nat, n: nat, x: Operand, y: Operand, s0: State, schedule: seq<nat>)
    requires 0 < ncores && Started(VectorPrograms(Vvadd1Lists(ncores, n), x, y), s0.shared, s0)
    requires forall core: nat :: core < ncores ==> Within(Vvadd1Mine(core, ncores, n), |s0.c|)
    ensures
      var progs := VectorPrograms(Vvadd1Lists(ncores, n), x, y);
      var s := Run(progs, s0, schedule);
      AllDone(progs, s) ==> VectorAdded(s0.c, s.c, x, y, Vvadd1Sets(ncores, n))
  {
    Vvadd1Dealt(ncores, n, |s0.c|);
    hide Dealt, VectorPrograms, VectorAdded, Vvadd1Lists, Vvadd1Sets, Started;
    VectorEveryRun(Vvadd1Lists(ncores, n), Vvadd1Sets(ncores, n), x, y, s0, schedule);
  }

  lemma Vvadd1Dealt(ncores: nat, n: nat, size: nat)
    requires 0 < ncores && forall core: nat :: core < ncores ==> Within(Vvadd1Mine(core, ncores, n), size)
    ensures Dealt(Vvadd1Lists(ncores, n), Vvadd1Sets(ncores, n), size)
  {
    hide Increasing, Elements, Vvadd1List, Rounds, Within;
    var lists, sets := Vvadd1Lists(ncores, n), Vvadd1Sets(ncores, n);
    forall t: nat | t < ncores
      ensures DealtTo(lists[t], sets[t], size)
    {
      Vvadd1Elements(t, ncores, n);
    }
  }
}
