/** Cores that each run through a list of cells of C and give every one of them a new value that
    depends on no other cell. */
module CellPrograms {
  import opened CorePrograms
  import opened Kernels
  import opened SharedFills
  import Barrier

  /** The new value of a cell, from its address and its value before. */
  type Update = (int, int) -> int

  ghost predicate WritesFrom(block: int -> seq<Action>, q: int, update: Update, shared: seq<int>, p: Core) {
    0 <= q < |p.c| && Solo(block(q), shared, p).c == p.c[q := update(q, p.c[q])]
  }

  /** Whatever the core starts with, block(q) touches only cell q and updates it. */
  ghost predicate Writes(block: int -> seq<Action>, q: int, update: Update, size: nat) {
    && 0 <= q < size && Works(block(q), {q}, 0)
    && forall shared: seq<int>, p: Core :: |p.c| == size ==> WritesFrom(block, q, update, shared, p)
  }

  ghost predicate AllWrite(block: int -> seq<Action>, list: seq<int>, update: Update, size: nat) {
    forall q :: q in list ==> Writes(block, q, update, size)
  }

  predicate NoRepeats(list: seq<int>) { forall k, l :: 0 <= k < l < |list| ==> list[k] != list[l] }

  predicate Settled(update: Update, q: int, v: int) { update(q, update(q, v)) == update(q, v) }

  /** Nothing is updated twice, or doing it twice makes no difference. */
  ghost predicate Once(list: seq<int>, update: Update) { NoRepeats(list) || forall q, v :: Settled(update, q, v) }

  /** Exactly the cells in the list have been updated. */
  predicate Updated(before: seq<int>, after: seq<int>, list: seq<int>, update: Update) {
    |after| == |before| && forall q :: 0 <= q < |after| ==> after[q] == if q in list then update(q, before[q])
        else before[q]
  }

  lemma ThenOthers(before: seq<int>, mid: seq<int>, after: seq<int>, list: seq<int>, update: Update)
    requires list != [] && 0 <= list[0] < |before| && mid == before[list[0] := update(list[0], before[list[0]])]
    requires Updated(mid, after, list[1..], update) && Once(list, update)
    ensures Updated(before, after, list, update)
  {
    assert forall q :: q in list <==> q == list[0] || q in list[1..];
    assert Settled(update, list[0], before[list[0]]) || NoRepeats(list);
  }

  lemma RestOnce(list: seq<int>, update: Update)
    requires list != [] && Once(list, update)
    ensures Once(list[1..], update)
  {
  }

  /** One core alone. */
  lemma {:induction false} EachWrites(list: seq<int>, block: int -> seq<Action>, update: Update, shared: seq<int>,
                                      p: Core)
    requires AllWrite(block, list, update, |p.c|) && Once(list, update)
    ensures Updated(p.c, Solo(Each(list, block), shared, p).c, list, update)
    decreases |list|
  {
    hide Once, Updated, Works;
    if list == [] {
      assert Updated(p.c, p.c, list, update) by { assert list == []; Nothing(p.c, list, update); }
    } else {
      var q := list[0];
      assert q in list && Writes(block, q, update, |p.c|);
      assert WritesFrom(block, q, update, shared, p);
      var mid := Solo(block(q), shared, p);
      SoloBoth(block(q), Each(list[1..], block), shared, p);
      RestOnce(list, update);
      EachWrites(list[1..], block, update, shared, mid);
      ThenOthers(p.c, mid.c, Solo(Each(list, block), shared, p).c, list, update);
    }
  }

  lemma Nothing(s: seq<int>, list: seq<int>, update: Update)
    requires list == []
    ensures Updated(s, s, list, update)
  {
  }

  function Elements(list: seq<int>): set<int> { set q | q in list }

  lemma WorksMore(prog: seq<Action>, cells: set<int>, cells': set<int>, bound: nat)
    requires Works(prog, cells, bound) && cells <= cells'
    ensures Works(prog, cells', bound)
  {
  }

  predicate WorksAt(block: int -> seq<Action>, q: int, cells: set<int>) { q in cells && Works(block(q), {q}, 0) }

  lemma {:induction false} EachWorks(list: seq<int>, block: int -> seq<Action>, cells: set<int>)
    requires forall q :: q in list ==> WorksAt(block, q, cells)
    ensures Works(Each(list, block), cells, 0)
    decreases |list|
  {
    if list != [] {
      hide Works;
      assert list[0] in list && WorksAt(block, list[0], cells);
      WorksMore(block(list[0]), {list[0]}, cells, 0);
      EachWorks(list[1..], block, cells);
      WorksBoth(block(list[0]), Each(list[1..], block), cells, 0);
    }
  }

  // ---------- all cores ----------

  function AllElements(lists: seq<seq<int>>): seq<set<int>> {
    seq(|lists|, t requires 0 <= t < |lists| => Elements(lists[t]))
  }

  /** Core t runs through list t; no cell is in two lists. */
  ghost predicate CellTeam(progs: Programs, lists: seq<seq<int>>, block: int -> seq<Action>, update: Update,
                           size: nat) {
    && |progs| == |lists| && Disjoint(AllElements(lists))
    && forall t :: 0 <= t < |progs| ==> CellCore(progs[t], lists[t], block, update, size)
  }

  ghost predicate CellCore(prog: seq<Action>, list: seq<int>, block: int -> seq<Action>, update: Update, size: nat) {
    prog == Each(list, block) && AllWrite(block, list, update, size) && Once(list, update)
  }

  ghost predicate InSome(lists: seq<seq<int>>, q: int) { exists t :: 0 <= t < |lists| && q in lists[t] }

  /** Exactly the cells in the lists have been updated. */
  ghost predicate AllUpdated(before: seq<int>, after: seq<int>, lists: seq<seq<int>>, update: Update) {
    && |after| == |before|
    && forall q :: 0 <= q < |after| ==> after[q] == if InSome(lists, q) then update(q, before[q]) else before[q]
  }

  lemma CellsProper(progs: Programs, lists: seq<seq<int>>, block: int -> seq<Action>, update: Update,
                    target: seq<int>, size: nat)
    requires CellTeam(progs, lists, block, update, size)
    ensures Proper(progs, target, AllElements(lists)) && SameCalls(progs, 0)
  {
    hide Works, Once, Syncs;
    var fills: Programs := seq(|progs|, t => []);
    var cells := AllElements(lists);
    forall t | 0 <= t < |progs|
      ensures FillAndWork(progs[t], fills[t], progs[t], target, cells[t], 0, 0)
    {
      assert CellCore(progs[t], lists[t], block, update, size);
      forall q | q in lists[t]
        ensures WorksAt(block, q, cells[t])
      {
        assert Writes(block, q, update, size);
      }
      EachWorks(lists[t], block, cells[t]);
      assert [] + progs[t] == progs[t];
      NoCallsYet(fills[t]);
    }
    FillsThenWork(progs, fills, progs, target, cells, 0, 0);
  }

  lemma NoCallsYet(fill: seq<Action>)
    requires fill == []
    ensures Syncs(fill, |fill|) == 0
  {
  }

  lemma CellsDone(progs: Programs, lists: seq<seq<int>>, block: int -> seq<Action>, update: Update, s0: State, s: State)
    requires CellTeam(progs, lists, block, update, |s0.c|) && Inv(progs, s0.shared, AllElements(lists), s0, s)
    requires AllDone(progs, s)
    ensures AllUpdated(s0.c, s.c, lists, update)
  {
    hide CellTeam, Inv, Solo;
    assert |s.c| == |s0.c| by { SameSize(progs, lists, s0, s); }
    forall q | 0 <= q < |s.c|
      ensures s.c[q] == if InSome(lists, q) then update(q, s0.c[q]) else s0.c[q]
    {
      CellDone(progs, lists, block, update, s0, s, q);
    }
  }

  lemma SameSize(progs: Programs, lists: seq<seq<int>>, s0: State, s: State)
    requires Inv(progs, s0.shared, AllElements(lists), s0, s)
    ensures |s.c| == |s0.c|
  {
  }

  lemma CellDone(progs: Programs, lists: seq<seq<int>>, block: int -> seq<Action>, update: Update, s0: State,
                 s: State, q: nat)
    requires CellTeam(progs, lists, block, update, |s0.c|) && Inv(progs, s0.shared, AllElements(lists), s0, s)
    requires AllDone(progs, s) && q < |s.c| == |s0.c|
    ensures s.c[q] == if InSome(lists, q) then update(q, s0.c[q]) else s0.c[q]
  {
    var cells := AllElements(lists);
    hide InStep, Barrier.Inv, Solo, Once, AllWrite, Disjoint;
    if InSome(lists, q) {
      var t: nat :| t < |lists| && q in lists[t];
      assert CellCore(progs[t], lists[t], block, update, |s0.c|);
      CoreAt(progs, s0.shared, cells, s0, s, t);
      assert progs[t][..s.at[t]] == progs[t];
      EachWrites(lists[t], block, update, s0.shared, Core(s0.regs[t], s0.c));
      assert q in cells[t];
    } else {
      assert forall t :: 0 <= t < |cells| ==> q !in cells[t];
    }
  }

  /** In every interleaving, when all cores are done exactly the cells in their lists have been updated,
      from the values C held at the beginning. */
  lemma CellsRun(progs: Programs, lists: seq<seq<int>>, block: int -> seq<Action>, update: Update, s0: State,
                 schedule: seq<nat>)
    requires Started(progs, s0.shared, s0) && CellTeam(progs, lists, block, update, |s0.c|)
    ensures AllDone(progs, Run(progs, s0, schedule)) ==> AllUpdated(s0.c, Run(progs, s0, schedule).c, lists, update)
  {
    CellsProper(progs, lists, block, update, s0.shared, |s0.c|);
    hide CellTeam, Proper, Inv, AllUpdated;
    RunOk(progs, s0.shared, AllElements(lists), s0, schedule);
    if AllDone(progs, Run(progs, s0, schedule)) {
      CellsDone(progs, lists, block, update, s0, Run(progs, s0, schedule));
    }
  }

  /** And if no core is starved, all cores come to an end. */
  lemma CellsFairRun(progs: Programs, lists: seq<seq<int>>, block: int -> seq<Action>, update: Update, s0: State,
                     f: nat -> nat)
    returns (j: nat)
    requires Started(progs, s0.shared, s0) && CellTeam(progs, lists, block, update, |s0.c|) && Barrier.Fair(f, |progs|)
    ensures AllDone(progs, StateAt(progs, s0, f, j)) && AllUpdated(s0.c, StateAt(progs, s0, f, j).c, lists, update)
  {
    CellsProper(progs, lists, block, update, s0.shared, |s0.c|);
    hide CellTeam, Proper, Inv, AllUpdated, SameCalls, Barrier.Fair;
    j := EventuallyDone(progs, s0.shared, AllElements(lists), s0, f, 0, 0);
    StateAtOk(progs, s0.shared, AllElements(lists), s0, f, j);
    CellsDone(progs, lists, block, update, s0, StateAt(progs, s0, f, j));
  }
}
