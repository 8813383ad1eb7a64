/** Cores that run straight-line programs side by side: statements on registers of their own, on the
    array C, on a shared array that they fill together, and calls of barrier().

    The loops of the multi-core products do not depend on data, so that each core's part is a list
    of statements.  One step of a core is one statement, or one statement of barrier(). */
module CorePrograms {
  import opened Strided
  import opened Team
  import Barrier

  /** One statement.  A and B are only read, so that their elements are values; q is an address in C,
      addr one in the shared array. */
  datatype Action =
    | Fill(addr: nat, value: int)
    | Sync
    | Clear(reg: nat)
    | Load(reg: nat, q: int)
    | Term(reg: nat, x: int, y: int)
    | SharedTerm(reg: nat, x: int, addr: nat)
    | Save(q: int, reg: nat)
    | AddTo(q: int, reg: nat)

  type Registers = map<int, int>

  /** What a core's own statements work on. */
  datatype Core = Core(regs: Registers, c: seq<int>)

  function Reg(regs: Registers, r: int): int { if r in regs then regs[r] else 0 }

  function ValueAt(s: seq<int>, q: int): int { if 0 <= q < |s| then s[q] else 0 }

  function Put(s: seq<int>, q: int, v: int): (s': seq<int>)
    ensures |s'| == |s|
  {
    if 0 <= q < |s| then s[q := v] else s
  }

  /** A statement that neither fills nor synchronizes. */
  function Do(act: Action, shared: seq<int>, p: Core): (p': Core)
    ensures |p'.c| == |p.c|
  {
    match act
    case Fill(_, _) => p
    case Sync => p
    case Clear(r) => p.(regs := p.regs[r := 0])
    case Load(r, q) => p.(regs := p.regs[r := ValueAt(p.c, q)])
    case Term(r, x, y) => p.(regs := p.regs[r := Reg(p.regs, r) + x * y])
    case SharedTerm(r, x, addr) => p.(regs := p.regs[r := Reg(p.regs, r) + x * ValueAt(shared, addr)])
    case Save(q, r) => p.(c := Put(p.c, q, Reg(p.regs, r)))
    case AddTo(q, r) => p.(c := Put(p.c, q, ValueAt(p.c, q) + Reg(p.regs, r)))
  }

  /** A program run by one core alone, with the shared array filled. */
  function Solo(prog: seq<Action>, shared: seq<int>, p: Core): (p': Core)
    ensures |p'.c| == |p.c|
  {
    if prog == [] then p else Do(prog[|prog| - 1], shared, Solo(prog[..|prog| - 1], shared, p))
  }

  lemma {:induction false} SoloBoth(a: seq<Action>, b: seq<Action>, shared: seq<int>, p: Core)
    ensures Solo(a + b, shared, p) == Solo(b, shared, Solo(a, shared, p))
    decreases |b|
  {
    if b == [] {
      assert a + b == a;
    } else {
      assert (a + b)[..|a + b| - 1] == a + b[..|b| - 1];
      SoloBoth(a, b[..|b| - 1], shared, p);
    }
  }

  lemma SoloNext(prog: seq<Action>, n: nat, shared: seq<int>, p: Core)
    requires n < |prog|
    ensures Solo(prog[..n + 1], shared, p) == Do(prog[n], shared, Solo(prog[..n], shared, p))
  {
    assert prog[..n + 1][..n] == prog[..n];
  }

  // ---------- the machine ----------

  type Programs = seq<seq<Action>>

  /** The shared array, the barrier, C, and of every core how far it is and its registers. */
  datatype State = State(shared: seq<int>, bar: Barrier.State, c: seq<int>, at: seq<nat>, regs: seq<Registers>)

  predicate Shaped(progs: Programs, s: State) { |s.at| == |s.regs| == |s.bar.threads| == |progs| }

  /** Core t takes its next step. */
  function Step(progs: Programs, s: State, t: nat): (s': State)
    requires Shaped(progs, s)
    ensures Shaped(progs, s')
  {
    if |progs| <= t || |progs[t]| <= s.at[t] then s else
    match progs[t][s.at[t]]
    case Fill(addr, value) => s.(shared := Put(s.shared, addr, value), at := s.at[t := s.at[t] + 1])
    case Sync =>
      var bar := Barrier.Step(s.bar, t);
      s.(bar := bar, at := if bar.threads[t].pc.Outside? then s.at[t := s.at[t] + 1] else s.at)
    case act =>
      var p := Do(act, s.shared, Core(s.regs[t], s.c));
      s.(c := p.c, regs := s.regs[t := p.regs], at := s.at[t := s.at[t] + 1])
  }

  /** Any interleaving. */
  function Run(progs: Programs, s: State, schedule: seq<nat>): (s': State)
    requires Shaped(progs, s)
    ensures Shaped(progs, s')
  {
    if schedule == [] then s
    else Step(progs, Run(progs, s, schedule[..|schedule| - 1]), schedule[|schedule| - 1])
  }

  predicate AllDone(progs: Programs, s: State)
    requires Shaped(progs, s)
  {
    forall t :: 0 <= t < |progs| ==> s.at[t] == |progs[t]|
  }

  /** The barrier calls among the first n actions of a program. */
  function Syncs(prog: seq<Action>, n: nat): nat
    requires n <= |prog|
  {
    if n == 0 then 0 else Syncs(prog, n - 1) + if prog[n - 1].Sync? then 1 else 0
  }

  lemma {:induction false} SyncsMonotone(prog: seq<Action>, m: nat, n: nat)
    requires m <= n <= |prog|
    ensures Syncs(prog, m) <= Syncs(prog, n)
  {
    if m < n {
      SyncsMonotone(prog, m, n - 1);
    }
  }

  // ---------- what the programs have to keep to ----------

  /** Whatever is filled in is the value meant for that address. */
  predicate FillsTarget(prog: seq<Action>, target: seq<int>) {
    forall q :: 0 <= q < |prog| && prog[q].Fill? ==> prog[q].addr < |target| && prog[q].value == target[prog[q].addr]
  }

  predicate Touches(act: Action) { act.Load? || act.Save? || act.AddTo? }

  /** Of C, only these cells are read and written. */
  predicate StaysIn(prog: seq<Action>, cells: set<int>) {
    forall k :: 0 <= k < |prog| && Touches(prog[k]) ==> prog[k].q in cells
  }

  /** Core u fills address x before its barrier call number n, counting from 0. */
  predicate FilledBy(progs: Programs, x: nat, n: nat, u: nat, q: nat) {
    u < |progs| && q < |progs[u]| && progs[u][q].Fill? && progs[u][q].addr == x && Syncs(progs[u], q) < n
  }

  ghost predicate FilledBefore(progs: Programs, x: nat, n: nat) {
    exists u: nat, q: nat :: FilledBy(progs, x, n, u, q)
  }

  /** Every read of the shared array is of an address that some core fills before an earlier call. */
  ghost predicate ReadsAreLate(progs: Programs) {
    forall t, p :: 0 <= t < |progs| && 0 <= p < |progs[t]| && progs[t][p].SharedTerm? ==>
      FilledBefore(progs, progs[t][p].addr, Syncs(progs[t], p))
  }

  /** Two cores have no cell of C in common. */
  predicate Disjoint(cells: seq<set<int>>) { forall t, u :: 0 <= t < u < |cells| ==> cells[t] !! cells[u] }

  /** Every core fills what is meant, keeps to its own cells, and reads the shared array late. */
  ghost predicate Proper(progs: Programs, target: seq<int>, cells: seq<set<int>>) {
    && |cells| == |progs| && Disjoint(cells) && ReadsAreLate(progs)
    && forall t :: 0 <= t < |progs| ==> FillsTarget(progs[t], target) && StaysIn(progs[t], cells[t])
  }

  /** Every core is at the beginning of its program, outside the barrier. */
  ghost predicate Started(progs: Programs, target: seq<int>, s: State) {
    && Shaped(progs, s) && Barrier.Inv(s.bar) && |s.shared| == |target|
    && forall t :: 0 <= t < |progs| ==> s.at[t] == 0 && s.bar.threads[t].pc.Outside?
  }

  // ---------- the invariant ----------

  predicate FillsDone(prog: seq<Action>, target: seq<int>, shared: seq<int>, n: nat)
    requires n <= |prog| && |shared| == |target|
  {
    forall q :: 0 <= q < n && prog[q].Fill? ==>
      prog[q].addr < |target| && shared[prog[q].addr] == target[prog[q].addr]
  }

  /** The two hold the same in these cells. */
  predicate SameCells(cells: set<int>, s: seq<int>, s': seq<int>) {
    |s| == |s'| && forall q :: 0 <= q < |s| && q in cells ==> s[q] == s'[q]
  }

  /** What core t has done so far is what it would have done alone. */
  ghost predicate AsAlone(progs: Programs, target: seq<int>, cells: seq<set<int>>, s0: State, s: State, t: nat)
    requires Shaped(progs, s0) && Shaped(progs, s) && t < |progs| == |cells| && s.at[t] <= |progs[t]|
  {
    var p := Solo(progs[t][..s.at[t]], target, Core(s0.regs[t], s0.c));
    s.regs[t] == p.regs && SameCells(cells[t], s.c, p.c)
  }

  /** The barrier calls of core t are those of its program, and its fills are in place. */
  ghost predicate InStep(progs: Programs, target: seq<int>, r0: nat, s: State, t: nat)
    requires Shaped(progs, s) && t < |progs| && |s.shared| == |target|
  {
    var prog, n, th := progs[t], s.at[t], s.bar.threads[t];
    && n <= |prog| && (!th.pc.Outside? ==> n < |prog| && prog[n].Sync?)
    && th.calls == r0 + Syncs(prog, n) + (if th.pc.Outside? then 0 else 1)
    && FillsDone(prog, target, s.shared, n)
  }

  ghost predicate Inv(progs: Programs, target: seq<int>, cells: seq<set<int>>, s0: State, s: State) {
    && Shaped(progs, s0) && Shaped(progs, s) && Barrier.Inv(s.bar)
    && |s.shared| == |target| && |s.c| == |s0.c| && |cells| == |progs|
    && (forall t :: 0 <= t < |progs| ==>
          InStep(progs, target, s0.bar.rounds, s, t) && AsAlone(progs, target, cells, s0, s, t))
    && forall q :: 0 <= q < |s.c| && (forall t :: 0 <= t < |cells| ==> q !in cells[t]) ==> s.c[q] == s0.c[q]
  }

  lemma CoreAt(progs: Programs, target: seq<int>, cells: seq<set<int>>, s0: State, s: State, t: nat)
    requires Inv(progs, target, cells, s0, s) && t < |progs|
    ensures Shaped(progs, s0) && Shaped(progs, s) && |s.shared| == |target| && |cells| == |progs|
    ensures InStep(progs, target, s0.bar.rounds, s, t) && AsAlone(progs, target, cells, s0, s, t)
    ensures Barrier.ThreadOk(s.bar.threads[t], s.bar.rounds)
  {
  }

  lemma StartedInv(progs: Programs, target: seq<int>, cells: seq<set<int>>, s: State)
    requires Started(progs, target, s) && |cells| == |progs|
    ensures Inv(progs, target, cells, s, s)
  {
    forall t | 0 <= t < |progs|
      ensures InStep(progs, target, s.bar.rounds, s, t) && AsAlone(progs, target, cells, s, s, t)
    {
      assert Barrier.ThreadOk(s.bar.threads[t], s.bar.rounds);
    }
  }

  // ---------- reads of the shared array ----------

  /** A core that has returned from its n-th barrier call and not entered the next: every other core
      is past what its program does before that call. */
  lemma PastTheSync(progs: Programs, target: seq<int>, r0: nat, s: State, t: nat, u: nat, q: nat)
    requires Shaped(progs, s) && t < |progs| && u < |progs| && q < |progs[u]| && |s.shared| == |target|
    requires InStep(progs, target, r0, s, t) && InStep(progs, target, r0, s, u)
    requires Barrier.ThreadOk(s.bar.threads[t], s.bar.rounds) && Barrier.ThreadOk(s.bar.threads[u], s.bar.rounds)
    requires s.bar.threads[t].pc.Outside? && !progs[u][q].Sync? && Syncs(progs[u], q) < Syncs(progs[t], s.at[t])
    ensures q < s.at[u]
  {
    hide FillsDone;
    if s.at[u] <= q {
      SyncsMonotone(progs[u], s.at[u], q);
      if s.at[u] < q {
        SyncsMonotone(progs[u], s.at[u] + 1, q);
      }
    }
  }

  /** A read of the shared array finds what was meant: whoever fills the address before an earlier
      barrier call has done so, and everybody who fills it again fills in the same. */
  lemma ReadSees(progs: Programs, target: seq<int>, cells: seq<set<int>>, s0: State, s: State, t: nat)
    requires Inv(progs, target, cells, s0, s) && ReadsAreLate(progs)
    requires t < |progs| && s.at[t] < |progs[t]| && progs[t][s.at[t]].SharedTerm?
    ensures var x := progs[t][s.at[t]].addr; x < |s.shared| == |target| && s.shared[x] == target[x]
  {
    var p := s.at[t];
    var x := progs[t][p].addr;
    assert FilledBefore(progs, x, Syncs(progs[t], p));
    var u: nat, q: nat :| FilledBy(progs, x, Syncs(progs[t], p), u, q);
    CoreAt(progs, target, cells, s0, s, t);
    CoreAt(progs, target, cells, s0, s, u);
    hide Inv, Barrier.Inv, ReadsAreLate, AsAlone, Syncs, Barrier.ThreadOk;
    PastTheSync(progs, target, s0.bar.rounds, s, t, u, q);
  }

  // ---------- every step keeps the invariant ----------

  lemma BarrierElsewhere(b: Barrier.State, t: nat, u: nat)
    requires t < |b.threads| && u < |b.threads| && u != t
    ensures Barrier.Step(b, t).threads[u] == b.threads[u]
  {
  }

  lemma FillKept(prog: seq<Action>, target: seq<int>, shared: seq<int>, n: nat, addr: nat)
    requires n <= |prog| && |shared| == |target| && addr < |target| && FillsDone(prog, target, shared, n)
    ensures FillsDone(prog, target, Put(shared, addr, target[addr]), n)
  {
  }

  lemma InStepFill(progs: Programs, target: seq<int>, r0: nat, s: State, t: nat, u: nat)
    requires Shaped(progs, s) && t < |progs| && u < |progs| && |s.shared| == |target|
    requires InStep(progs, target, r0, s, t) && InStep(progs, target, r0, s, u) && FillsTarget(progs[t], target)
    requires s.at[t] < |progs[t]| && progs[t][s.at[t]].Fill?
    ensures InStep(progs, target, r0, Step(progs, s, t), u)
  {
    assert s.bar.threads[t].pc.Outside?;
    FillKept(progs[u], target, s.shared, s.at[u], progs[t][s.at[t]].addr);
    hide Barrier.Step;
  }

  lemma InStepSync(progs: Programs, target: seq<int>, r0: nat, s: State, t: nat, u: nat)
    requires Shaped(progs, s) && t < |progs| && u < |progs| && |s.shared| == |target|
    requires InStep(progs, target, r0, s, t) && InStep(progs, target, r0, s, u)
    requires s.at[t] < |progs[t]| && progs[t][s.at[t]].Sync?
    ensures InStep(progs, target, r0, Step(progs, s, t), u)
  {
    if u != t {
      BarrierElsewhere(s.bar, t, u);
    }
  }

  lemma InStepPrivate(progs: Programs, target: seq<int>, r0: nat, s: State, t: nat, u: nat)
    requires Shaped(progs, s) && t < |progs| && u < |progs| && |s.shared| == |target|
    requires InStep(progs, target, r0, s, t) && InStep(progs, target, r0, s, u)
    requires s.at[t] < |progs[t]| && !progs[t][s.at[t]].Sync? && !progs[t][s.at[t]].Fill?
    ensures InStep(progs, target, r0, Step(progs, s, t), u)
  {
    assert s.bar.threads[t].pc.Outside?;
    hide Barrier.Step, Do;
  }

  lemma InStepKept(progs: Programs, target: seq<int>, r0: nat, s: State, t: nat, u: nat)
    requires Shaped(progs, s) && t < |progs| && u < |progs| && |s.shared| == |target|
    requires InStep(progs, target, r0, s, t) && InStep(progs, target, r0, s, u) && FillsTarget(progs[t], target)
    ensures |Step(progs, s, t).shared| == |target| && InStep(progs, target, r0, Step(progs, s, t), u)
  {
    if s.at[t] < |progs[t]| {
      match progs[t][s.at[t]]
      case Fill(_, _) => InStepFill(progs, target, r0, s, t, u);
      case Sync => InStepSync(progs, target, r0, s, t, u);
      case _ => InStepPrivate(progs, target, r0, s, t, u);
    }
  }

  /** A statement does the same on two memories that agree on the cells it may touch. */
  lemma SameDo(act: Action, shared: seq<int>, shared': seq<int>, p: Core, p': Core, cells: set<int>)
    requires p.regs == p'.regs && SameCells(cells, p.c, p'.c) && (Touches(act) ==> act.q in cells)
    requires act.SharedTerm? ==> ValueAt(shared, act.addr) == ValueAt(shared', act.addr)
    ensures Do(act, shared, p).regs == Do(act, shared', p').regs
    ensures SameCells(cells, Do(act, shared, p).c, Do(act, shared', p').c)
  {
  }

  /** A statement changes only the cells it may touch. */
  lemma OnlyOwn(act: Action, shared: seq<int>, p: Core, cells: set<int>)
    requires Touches(act) ==> act.q in cells
    ensures forall q :: 0 <= q < |p.c| && q !in cells ==> Do(act, shared, p).c[q] == p.c[q]
  {
  }

  /** A step of core t on C: one statement of its own, or nothing. */
  lemma StepOnC(progs: Programs, s: State, t: nat, cells: set<int>)
    requires Shaped(progs, s) && t < |progs| && StaysIn(progs[t], cells)
    ensures var s' := Step(progs, s, t);
            && |s'.c| == |s.c| && (forall q :: 0 <= q < |s.c| && q !in cells ==> s'.c[q] == s.c[q])
            && forall u :: 0 <= u < |progs| && u != t ==> s'.regs[u] == s.regs[u] && s'.at[u] == s.at[u]
  {
    if s.at[t] < |progs[t]| {
      OnlyOwn(progs[t][s.at[t]], s.shared, Core(s.regs[t], s.c), cells);
    }
    hide Do, Barrier.Step;
  }

  lemma AsAloneOther(progs: Programs, target: seq<int>, cells: seq<set<int>>, s0: State, s: State, t: nat, u: nat)
    requires Shaped(progs, s0) && Shaped(progs, s) && t < |progs| == |cells| && u < |progs| && u != t
    requires s.at[u] <= |progs[u]| && AsAlone(progs, target, cells, s0, s, u)
    requires cells[t] !! cells[u] && StaysIn(progs[t], cells[t])
    ensures Step(progs, s, t).at[u] <= |progs[u]| && AsAlone(progs, target, cells, s0, Step(progs, s, t), u)
  {
    StepOnC(progs, s, t, cells[t]);
    hide Step, Solo;
  }

  lemma AsAloneOwn(progs: Programs, target: seq<int>, cells: seq<set<int>>, s0: State, s: State, t: nat)
    requires Shaped(progs, s0) && Shaped(progs, s) && t < |progs| == |cells| && |s.shared| == |target|
    requires s.at[t] <= |progs[t]| && AsAlone(progs, target, cells, s0, s, t) && StaysIn(progs[t], cells[t])
    requires s.at[t] < |progs[t]| && progs[t][s.at[t]].SharedTerm? ==>
               var x := progs[t][s.at[t]].addr; x < |target| && s.shared[x] == target[x]
    ensures Step(progs, s, t).at[t] <= |progs[t]| && AsAlone(progs, target, cells, s0, Step(progs, s, t), t)
  {
    var n := s.at[t];
    if n < |progs[t]| {
      var act := progs[t][n];
      var p := Solo(progs[t][..n], target, Core(s0.regs[t], s0.c));
      SoloNext(progs[t], n, target, Core(s0.regs[t], s0.c));
      SameDo(act, s.shared, target, Core(s.regs[t], s.c), p, cells[t]);
      hide Solo, Barrier.Step, SameCells;
      if act.Sync? || act.Fill? {
        assert Do(act, target, p) == p;
      } else {
        hide Do;
      }
    }
  }

  lemma BarrierOk(progs: Programs, s: State, t: nat)
    requires Shaped(progs, s) && Barrier.Inv(s.bar)
    ensures Barrier.Inv(Step(progs, s, t).bar)
  {
    hide Barrier.Inv, Barrier.Step;
    Barrier.StepInv(s.bar, t);
  }

  lemma StepOk(progs: Programs, target: seq<int>, cells: seq<set<int>>, s0: State, s: State, t: nat)
    requires Inv(progs, target, cells, s0, s) && Proper(progs, target, cells)
    ensures Inv(progs, target, cells, s0, Step(progs, s, t))
  {
    var s' := Step(progs, s, t);
    BarrierOk(progs, s, t);
    if t < |progs| {
      assert FillsTarget(progs[t], target) && StaysIn(progs[t], cells[t]);
      StepOnC(progs, s, t, cells[t]);
      CoreAt(progs, target, cells, s0, s, t);
      if s.at[t] < |progs[t]| && progs[t][s.at[t]].SharedTerm? {
        ReadSees(progs, target, cells, s0, s, t);
      }
      forall u | 0 <= u < |progs|
        ensures |s'.shared| == |target| && InStep(progs, target, s0.bar.rounds, s', u)
        ensures AsAlone(progs, target, cells, s0, s', u)
      {
        CoreAt(progs, target, cells, s0, s, u);
        hide Inv;
        InStepKept(progs, target, s0.bar.rounds, s, t, u);
        if u == t {
          AsAloneOwn(progs, target, cells, s0, s, t);
        } else {
          AsAloneOther(progs, target, cells, s0, s, t, u);
        }
      }
      InStepKept(progs, target, s0.bar.rounds, s, t, t);
    }
    hide InStep, AsAlone, Barrier.Inv, ReadsAreLate, Step, StaysIn, FillsTarget;
  }

  lemma {:induction false} RunOk(progs: Programs, target: seq<int>, cells: seq<set<int>>, s0: State, schedule: seq<nat>)
    requires Started(progs, target, s0) && Proper(progs, target, cells)
    ensures Inv(progs, target, cells, s0, Run(progs, s0, schedule))
  {
    if schedule == [] {
      StartedInv(progs, target, cells, s0);
    } else {
      RunOk(progs, target, cells, s0, schedule[..|schedule| - 1]);
      StepOk(progs, target, cells, s0, Run(progs, s0, schedule[..|schedule| - 1]), schedule[|schedule| - 1]);
    }
  }

  // ---------- safety of every run ----------

  /** Over every interleaving: when a core is about to read the shared array, it finds what was meant. */
  lemma EveryRead(progs: Programs, target: seq<int>, cells: seq<set<int>>, s0: State, schedule: seq<nat>, t: nat)
    requires Started(progs, target, s0) && Proper(progs, target, cells) && t < |progs|
    ensures
      var s := Run(progs, s0, schedule);
      s.at[t] < |progs[t]| && progs[t][s.at[t]].SharedTerm? ==>
        var x := progs[t][s.at[t]].addr; x < |s.shared| == |target| && s.shared[x] == target[x]
  {
    var s := Run(progs, s0, schedule);
    RunOk(progs, target, cells, s0, schedule);
    if s.at[t] < |progs[t]| && progs[t][s.at[t]].SharedTerm? {
      ReadSees(progs, target, cells, s0, s, t);
    }
  }

  /** After any interleaving a core's registers and its cells of C are what they would be had the core
      run alone, with the shared array filled from the beginning. */
  lemma AsIfAlone(progs: Programs, target: seq<int>, cells: seq<set<int>>, s0: State, schedule: seq<nat>, t: nat)
    requires Started(progs, target, s0) && Proper(progs, target, cells) && t < |progs|
    ensures
      var s := Run(progs, s0, schedule);
      s.at[t] <= |progs[t]| && AsAlone(progs, target, cells, s0, s, t)
  {
    RunOk(progs, target, cells, s0, schedule);
    CoreAt(progs, target, cells, s0, Run(progs, s0, schedule), t);
  }

  /** A core that is done has made the barrier calls of its program. */
  lemma CallsMade(progs: Programs, target: seq<int>, cells: seq<set<int>>, s0: State, schedule: seq<nat>, t: nat)
    requires Started(progs, target, s0) && Proper(progs, target, cells) && t < |progs|
    ensures
      var s := Run(progs, s0, schedule);
      s.at[t] == |progs[t]| ==> s.bar.threads[t].calls == s.bar.rounds == s0.bar.rounds + Syncs(progs[t], |progs[t]|)
  {
    RunOk(progs, target, cells, s0, schedule);
    CoreAt(progs, target, cells, s0, Run(progs, s0, schedule), t);
  }

  /** The cells of a matrix in these rows. */
  function CellsOf(rows: set<int>, ld: int, size: nat): set<int> {
    set q | 0 <= q < size && InRows(q, ld, rows)
  }

  predicate InRows(q: int, ld: int, rows: set<int>) { ld > 0 && RowOf(q, 0, ld) in rows }

  function CellsOfAll(rows: seq<set<int>>, ld: int, size: nat): seq<set<int>> {
    seq(|rows|, t requires 0 <= t < |rows| => CellsOf(rows[t], ld, size))
  }

  lemma RowsApart(rows: seq<set<int>>, m: nat, ld: int, size: nat)
    requires Partition(rows, m)
    ensures Disjoint(CellsOfAll(rows, ld, size))
  {
  }

  /** Each core alone would add the product into its own rows. */
  ghost predicate EachAdds(progs: Programs, target: seq<int>, s0: State, rows: seq<set<int>>, a: View, b: View,
                           ld: int, p: int)
    requires Shaped(progs, s0)
  {
    |rows| == |progs| && forall t :: 0 <= t < |progs| ==>
      AddsInto(s0.c, Solo(progs[t], target, Core(s0.regs[t], s0.c)).c, a, b, ld, rows[t], ld, p)
  }

  /** Cores that alone would each add the product into their own rows, and between them own all rows,
      have in every interleaving added the whole product when they are done. */
  lemma InterleavedProduct(
    progs: Programs, target: seq<int>, s0: State, schedule: seq<nat>, rows: seq<set<int>>, a: View, b: View, ld: int,
    m: nat, p: int)
    requires Started(progs, target, s0) && Partition(rows, m) && EachAdds(progs, target, s0, rows, a, b, ld, p)
    requires Proper(progs, target, CellsOfAll(rows, ld, |s0.c|))
    ensures AllDone(progs, Run(progs, s0, schedule)) ==>
              AddsProduct(s0.c, Run(progs, s0, schedule).c, a, b, 0, ld, m, ld, p)
  {
    RunOk(progs, target, CellsOfAll(rows, ld, |s0.c|), s0, schedule);
    DoneProduct(progs, target, s0, Run(progs, s0, schedule), rows, a, b, ld, m, p);
  }

  lemma DoneProduct(progs: Programs, target: seq<int>, s0: State, s: State, rows: seq<set<int>>, a: View, b: View,
                    ld: int, m: nat, p: int)
    requires Inv(progs, target, CellsOfAll(rows, ld, |s0.c|), s0, s) && Partition(rows, m)
    requires EachAdds(progs, target, s0, rows, a, b, ld, p)
    ensures AllDone(progs, s) ==> AddsProduct(s0.c, s.c, a, b, 0, ld, m, ld, p)
  {
    if AllDone(progs, s) {
      forall q | 0 <= q < |s.c|
        ensures s.c[q] == s0.c[q] + Share(a, b, q, 0, ld, Box(0, m, 0, ld, 0, p))
      {
        CellDone(progs, target, s0, s, rows, a, b, ld, m, p, q);
      }
    }
  }

  lemma CellDone(progs: Programs, target: seq<int>, s0: State, s: State, rows: seq<set<int>>, a: View, b: View,
                 ld: int, m: nat, p: int, q: nat)
    requires Inv(progs, target, CellsOfAll(rows, ld, |s0.c|), s0, s) && Partition(rows, m)
    requires EachAdds(progs, target, s0, rows, a, b, ld, p) && AllDone(progs, s) && q < |s.c|
    ensures s.c[q] == s0.c[q] + Share(a, b, q, 0, ld, Box(0, m, 0, ld, 0, p))
  {
    var cells := CellsOfAll(rows, ld, |s0.c|);
    hide Dot, Solo, InStep, Barrier.Inv;
    if ld > 0 && 0 <= RowOf(q, 0, ld) < m {
      assert Owned(rows, RowOf(q, 0, ld));
      var t :| 0 <= t < |rows| && RowOf(q, 0, ld) in rows[t];
      CoreAt(progs, target, cells, s0, s, t);
      assert progs[t][..s.at[t]] == progs[t];
      assert q in cells[t];
      assert ColOf(q, 0, ld) < ld;
    } else {
      assert ld > 0 ==> !Owned(rows, RowOf(q, 0, ld));
      assert forall t :: 0 <= t < |cells| ==> q !in cells[t];
    }
  }

  // ---------- no deadlock, and every fair run ends ----------

  /** All programs make the same number of barrier calls. */
  predicate SameCalls(progs: Programs, calls: nat) {
    forall t :: 0 <= t < |progs| ==> Syncs(progs[t], |progs[t]|) == calls
  }

  /** A thread whose calls are the rounds completed is outside or about to leave. */
  lemma Leaves(b: Barrier.State, t: nat)
    requires Barrier.Inv(b) && t < |b.threads| && b.threads[t].calls == b.rounds && !b.threads[t].pc.Outside?
    ensures Barrier.Step(b, t).threads[t].pc.Outside?
  {
    assert Barrier.ThreadOk(b.threads[t], b.rounds);
  }

  lemma DoneCalls(progs: Programs, target: seq<int>, cells: seq<set<int>>, s0: State, s: State, t: nat, u: nat,
                  calls: nat)
    requires Inv(progs, target, cells, s0, s) && SameCalls(progs, calls) && t < |progs| && u < |progs|
    requires s.at[t] == |progs[t]| && s.at[u] < |progs[u]| && !s.bar.threads[u].pc.Outside?
    ensures s.bar.threads[u].calls == s.bar.rounds
  {
    CoreAt(progs, target, cells, s0, s, t);
    CoreAt(progs, target, cells, s0, s, u);
    SyncsMonotone(progs[u], s.at[u] + 1, |progs[u]|);
  }

  /** As long as some core is not done, some core that is not done has a step that changes the state. */
  lemma SomeoneMoves(progs: Programs, target: seq<int>, cells: seq<set<int>>, s0: State, s: State, calls: nat)
      returns (t: nat)
    requires Inv(progs, target, cells, s0, s) && SameCalls(progs, calls) && !AllDone(progs, s)
    ensures t < |progs| && Step(progs, s, t) != s
  {
    var u: nat :| u < |progs| && s.at[u] != |progs[u]|;
    CoreAt(progs, target, cells, s0, s, u);
    if s.bar.threads[u].pc.Outside? {
      t := u;
      OutsideMoves(progs, s, t);
    } else {
      t := Barrier.SomeoneMoves(s.bar);
      CoreAt(progs, target, cells, s0, s, t);
      if s.at[t] == |progs[t]| {
        DoneCalls(progs, target, cells, s0, s, t, u, calls);
        Leaves(s.bar, u);
        t := u;
      } else if s.bar.threads[t].pc.Outside? {
        OutsideMoves(progs, s, t);
      }
    }
  }

  lemma OutsideMoves(progs: Programs, s: State, t: nat)
    requires Shaped(progs, s) && t < |progs| && s.at[t] < |progs[t]| && s.bar.threads[t].pc.Outside?
    ensures Step(progs, s, t) != s
  {
    var s' := Step(progs, s, t);
    if progs[t][s.at[t]].Sync? {
      assert s'.bar.threads[t].pc.Adding?;
    } else {
      assert s'.at[t] == s.at[t] + 1;
    }
  }

  function BarrierRank(pc: Barrier.Pc): nat {
    match pc
    case Outside => 0
    case Adding => 1
    case Spinning => 2
    case Resetting => 2
    case Releasing => 3
  }

  /** What a core has before it: four steps for each action, less those made in a barrier call. */
  function Rank(prog: seq<Action>, n: nat, pc: Barrier.Pc): int { 4 * (|prog| - n) - BarrierRank(pc) }

  function TotalRank(progs: Programs, s: State, k: nat): int
    requires Shaped(progs, s) && k <= |progs|
  {
    if k == 0 then 0 else TotalRank(progs, s, k - 1) + Rank(progs[k - 1], s.at[k - 1], s.bar.threads[k - 1].pc)
  }

  lemma {:induction false} RankUpdate(progs: Programs, s: State, s': State, t: nat, k: nat)
    requires Shaped(progs, s) && Shaped(progs, s') && k <= |progs| && t < |progs|
    requires forall u :: 0 <= u < |progs| && u != t ==> s'.at[u] == s.at[u] && s'.bar.threads[u] == s.bar.threads[u]
    ensures TotalRank(progs, s', k) - TotalRank(progs, s, k) ==
            if t < k then
              Rank(progs[t], s'.at[t], s'.bar.threads[t].pc) - Rank(progs[t], s.at[t], s.bar.threads[t].pc)
            else 0
  {
    if k > 0 {
      RankUpdate(progs, s, s', t, k - 1);
    }
  }

  /** Every step that changes the state brings the end nearer. */
  lemma RankFalls(progs: Programs, target: seq<int>, cells: seq<set<int>>, s0: State, s: State, t: nat)
    requires Inv(progs, target, cells, s0, s) && Step(progs, s, t) != s
    ensures TotalRank(progs, Step(progs, s, t), |progs|) < TotalRank(progs, s, |progs|)
  {
    var s' := Step(progs, s, t);
    CoreAt(progs, target, cells, s0, s, t);
    forall u | 0 <= u < |progs| && u != t
      ensures s'.at[u] == s.at[u] && s'.bar.threads[u] == s.bar.threads[u]
    {
      BarrierElsewhere(s.bar, t, u);
    }
    hide Inv, InStep, AsAlone, Barrier.Inv;
    RankUpdate(progs, s, s', t, |progs|);
    OwnRankFalls(progs, target, s0.bar.rounds, s, t);
  }

  lemma OwnRankFalls(progs: Programs, target: seq<int>, r0: nat, s: State, t: nat)
    requires Shaped(progs, s) && t < |progs| && |s.shared| == |target| && InStep(progs, target, r0, s, t)
    requires Step(progs, s, t) != s
    ensures var s' := Step(progs, s, t);
            Rank(progs[t], s'.at[t], s'.bar.threads[t].pc) < Rank(progs[t], s.at[t], s.bar.threads[t].pc)
  {
    hide Do;
  }

  lemma RankBounded(progs: Programs, target: seq<int>, cells: seq<set<int>>, s0: State, s: State, k: nat)
    requires Inv(progs, target, cells, s0, s) && k <= |progs|
    ensures TotalRank(progs, s, k) >= 0
  {
    if k > 0 {
      RankBounded(progs, target, cells, s0, s, k - 1);
      CoreAt(progs, target, cells, s0, s, k - 1);
    }
  }

  /** State i of the infinite run in which core f(j) takes step j. */
  function StateAt(progs: Programs, s: State, f: nat -> nat, i: nat): (r: State)
    requires Shaped(progs, s)
    ensures Shaped(progs, r)
  {
    if i == 0 then s else Step(progs, StateAt(progs, s, f, i - 1), f(i - 1))
  }

  lemma {:induction false} StateAtOk(progs: Programs, target: seq<int>, cells: seq<set<int>>, s0: State,
                                     f: nat -> nat, i: nat)
    requires Started(progs, target, s0) && Proper(progs, target, cells)
    ensures Inv(progs, target, cells, s0, StateAt(progs, s0, f, i))
  {
    if i == 0 {
      StartedInv(progs, target, cells, s0);
    } else {
      StateAtOk(progs, target, cells, s0, f, i - 1);
      StepOk(progs, target, cells, s0, StateAt(progs, s0, f, i - 1), f(i - 1));
    }
  }

  /** If core f(j) would change state i, the state changes by step j. */
  lemma {:induction false} ChangeBy(progs: Programs, s: State, f: nat -> nat, i: nat, j: nat) returns (k: nat)
    requires Shaped(progs, s) && i <= j && Step(progs, StateAt(progs, s, f, i), f(j)) != StateAt(progs, s, f, i)
    ensures StateAt(progs, s, f, k) == StateAt(progs, s, f, i)
    ensures StateAt(progs, s, f, k + 1) != StateAt(progs, s, f, k) && i <= k <= j
    decreases j - i
  {
    if StateAt(progs, s, f, i + 1) != StateAt(progs, s, f, i) {
      k := i;
    } else {
      k := ChangeBy(progs, s, f, i + 1, j);
    }
  }

  lemma SomeTurn(progs: Programs, target: seq<int>, cells: seq<set<int>>, s0: State, s: State, f: nat -> nat, i: nat,
                 calls: nat)
    returns (turn: nat)
    requires Inv(progs, target, cells, s0, s) && SameCalls(progs, calls) && !AllDone(progs, s)
      && Barrier.Fair(f, |progs|)
    ensures i <= turn && Step(progs, s, f(turn)) != s
  {
    hide Inv, SameCalls, AllDone, Step;
    var t := SomeoneMoves(progs, target, cells, s0, s, calls);
    assert Barrier.TurnAfter(f, t, i);
    turn :| i <= turn && f(turn) == t;
  }

  lemma StepNearer(progs: Programs, target: seq<int>, cells: seq<set<int>>, s0: State, s: State, t: nat)
    requires Inv(progs, target, cells, s0, s) && Proper(progs, target, cells) && Step(progs, s, t) != s
    ensures 0 <= TotalRank(progs, Step(progs, s, t), |progs|) < TotalRank(progs, s, |progs|)
  {
    assert Shaped(progs, s);
    hide Inv, Proper, Step, TotalRank;
    RankFalls(progs, target, cells, s0, s, t);
    StepOk(progs, target, cells, s0, s, t);
    RankBounded(progs, target, cells, s0, Step(progs, s, t), |progs|);
  }

  lemma NextChange(progs: Programs, target: seq<int>, cells: seq<set<int>>, s0: State, f: nat -> nat, i: nat,
                   calls: nat) returns (n: nat)
    requires Shaped(progs, s0) && Inv(progs, target, cells, s0, StateAt(progs, s0, f, i)) && SameCalls(progs, calls)
    requires Barrier.Fair(f, |progs|) && !AllDone(progs, StateAt(progs, s0, f, i))
    ensures StateAt(progs, s0, f, n + 1) == Step(progs, StateAt(progs, s0, f, i), f(n)) != StateAt(progs, s0, f, i)
  {
    hide Inv, SameCalls, AllDone, Step, Barrier.Fair;
    var turn := SomeTurn(progs, target, cells, s0, StateAt(progs, s0, f, i), f, i, calls);
    n := ChangeBy(progs, s0, f, i, turn);
  }

  /** Under a fair schedule a state in which some core is not done is followed by one nearer the end. */
  lemma GetsNearer(progs: Programs, target: seq<int>, cells: seq<set<int>>, s0: State, f: nat -> nat, i: nat,
                   calls: nat) returns (k: nat)
    requires Shaped(progs, s0) && Inv(progs, target, cells, s0, StateAt(progs, s0, f, i))
      && Proper(progs, target, cells)
    requires SameCalls(progs, calls) && Barrier.Fair(f, |progs|) && !AllDone(progs, StateAt(progs, s0, f, i))
    ensures 0 <= TotalRank(progs, StateAt(progs, s0, f, k), |progs|)
              < TotalRank(progs, StateAt(progs, s0, f, i), |progs|)
  {
    hide *;
    var n := NextChange(progs, target, cells, s0, f, i, calls);
    k := n + 1;
    StepNearer(progs, target, cells, s0, StateAt(progs, s0, f, i), f(n));
  }

  /** Under a fair schedule all cores come to the end of their programs. */
  lemma {:induction false} EventuallyDone(
    progs: Programs, target: seq<int>, cells: seq<set<int>>, s0: State, f: nat -> nat, i: nat, calls: nat)
    returns (j: nat)
    requires Started(progs, target, s0) && Proper(progs, target, cells) && SameCalls(progs, calls)
    requires Barrier.Fair(f, |progs|)
    ensures AllDone(progs, StateAt(progs, s0, f, j))
    decreases TotalRank(progs, StateAt(progs, s0, f, i), |progs|)
  {
    assert Shaped(progs, s0);
    hide *;
    if AllDone(progs, StateAt(progs, s0, f, i)) {
      j := i;
    } else {
      StateAtOk(progs, target, cells, s0, f, i);
      var k := GetsNearer(progs, target, cells, s0, f, i, calls);
      j := EventuallyDone(progs, target, cells, s0, f, k, calls);
    }
  }

  /** Total correctness: as long as no core is starved, all of them end, and then C has gained A*B. */
  lemma FairProduct(
    progs: Programs, target: seq<int>, s0: State, f: nat -> nat, rows: seq<set<int>>, a: View, b: View, ld: int,
    m: nat, p: int, calls: nat)
    returns (j: nat)
    requires Started(progs, target, s0) && Partition(rows, m) && EachAdds(progs, target, s0, rows, a, b, ld, p)
    requires Proper(progs, target, CellsOfAll(rows, ld, |s0.c|)) && SameCalls(progs, calls) && Barrier.Fair(f, |progs|)
    ensures AllDone(progs, StateAt(progs, s0, f, j))
      && AddsProduct(s0.c, StateAt(progs, s0, f, j).c, a, b, 0, ld, m, ld, p)
  {
    var cells := CellsOfAll(rows, ld, |s0.c|);
    j := EventuallyDone(progs, target, cells, s0, f, 0, calls);
    StateAtOk(progs, target, cells, s0, f, j);
    DoneProduct(progs, target, s0, StateAt(progs, s0, f, j), rows, a, b, ld, m, p);
  }

  // ---------- why the cells have to be apart ----------

  /** C[q] += x: read the cell, add, write the cell. */
  function Increment(q: int, x: int): (p: seq<Action>)
    ensures |p| == 3
  {
    [Load(0, q), Term(0, x, 1), Save(q, 0)]
  }

  /** One step of a core that increments. */
  lemma IncrementStep(progs: Programs, s: State, t: nat, x: int, k: nat)
    requires Shaped(progs, s) && t < |progs| && progs[t] == Increment(0, x) && s.at[t] == k < 3 && |s.c| == 1
    ensures
      var v, r := s.c[0], Reg(s.regs[t], 0);
      Step(progs, s, t) == s.(c := if k == 2 then [r] else s.c, at := s.at[t := k + 1],
                              regs := s.regs[t := if k == 0 then s.regs[t][0 := v]
                                                  else if k == 1 then s.regs[t][0 := r + x] else s.regs[t]])
  {
    assert s.regs[t := s.regs[t]] == s.regs;
  }

  lemma RunNext(progs: Programs, s0: State, schedule: seq<nat>, s: State, t: nat, s': State, longer: seq<nat>)
    requires Shaped(progs, s0) && Shaped(progs, s) && Run(progs, s0, schedule) == s && Step(progs, s, t) == s'
    requires longer == schedule + [t]
    ensures Run(progs, s0, longer) == s'
  {
    hide Step, Shaped;
    assert longer[..|longer| - 1] == schedule && longer[|longer| - 1] == t;
  }

  lemma RunNothing(progs: Programs, s: State)
    requires Shaped(progs, s)
    ensures Run(progs, s, []) == s
  {
  }

  /** Two cores at places m and n of their programs, with these values in their registers. */
  function Both(bar: Barrier.State, c: int, m: nat, n: nat, r: Registers, r': Registers): State {
    State([], bar, [c], [m, n], [r, r'])
  }

  /** Two cores that add into the same cell without a barrier: if both read it before either writes, one
      of the two sums is lost, although both cores are done. */
  lemma LostUpdate(bar: Barrier.State, c: int, x: int, y: int)
    requires |bar.threads| == 2
    ensures
      var progs := [Increment(0, x), Increment(0, y)];
      var s := Run(progs, Both(bar, c, 0, 0, map[], map[]), [0, 1, 0, 0, 1, 1]);
      AllDone(progs, s) && s.c == [c + y]
  {
    hide Step, Increment, Run;
    var progs := [Increment(0, x), Increment(0, y)];
    var s0, s1 := Both(bar, c, 0, 0, map[], map[]), Both(bar, c, 1, 0, map[0 := c], map[]);
    var s2, s3 := Both(bar, c, 1, 1, map[0 := c], map[0 := c]), Both(bar, c, 2, 1, map[0 := c + x], map[0 := c]);
    var s4 := Both(bar, c + x, 3, 1, map[0 := c + x], map[0 := c]);
    var s5 := Both(bar, c + x, 3, 2, map[0 := c + x], map[0 := c + y]);
    var s6 := Both(bar, c + y, 3, 3, map[0 := c + x], map[0 := c + y]);
    assert map[0 := c][0 := c + x] == map[0 := c + x] && map[0 := c][0 := c + y] == map[0 := c + y];
    IncrementStep(progs, s0, 0, x, 0);
    IncrementStep(progs, s1, 1, y, 0);
    IncrementStep(progs, s2, 0, x, 1);
    IncrementStep(progs, s3, 0, x, 2);
    IncrementStep(progs, s4, 1, y, 1);
    IncrementStep(progs, s5, 1, y, 2);
    SixSteps(progs, s0, s1, s2, s3, s4, s5, s6);
  }

  lemma SixSteps(progs: Programs, s0: State, s1: State, s2: State, s3: State, s4: State, s5: State, s6: State)
    requires Shaped(progs, s0) && Shaped(progs, s1) && Shaped(progs, s2) && Shaped(progs, s3) && Shaped(progs, s4)
    requires Shaped(progs, s5) && Step(progs, s0, 0) == s1 && Step(progs, s1, 1) == s2 && Step(progs, s2, 0) == s3
    requires Step(progs, s3, 0) == s4 && Step(progs, s4, 1) == s5 && Step(progs, s5, 1) == s6
    ensures Run(progs, s0, [0, 1, 0, 0, 1, 1]) == s6
  {
    hide Step, Shaped, Run;
    RunNothing(progs, s0);
    RunNext(progs, s0, [], s0, 0, s1, [0]);
    RunNext(progs, s0, [0], s1, 1, s2, [0, 1]);
    RunNext(progs, s0, [0, 1], s2, 0, s3, [0, 1, 0]);
    RunNext(progs, s0, [0, 1, 0], s3, 0, s4, [0, 1, 0, 0]);
    RunNext(progs, s0, [0, 1, 0, 0], s4, 1, s5, [0, 1, 0, 0, 1]);
    RunNext(progs, s0, [0, 1, 0, 0, 1], s5, 1, s6, [0, 1, 0, 0, 1, 1]);
  }
}
