/** riscv-tests/benchmarks/common/util.h: the sense-reversing barrier.

    Threads interleave the statements of barrier() in any order.  Each statement that touches
    shared memory is one atomic step; the two fences are taken as giving sequential consistency. */
module Barrier {

  /** The statement a thread executes next.  Outside means not in a call. */
  datatype Pc = Outside | Adding | Resetting | Releasing | Spinning

  /** A thread: its next statement, its thread-local threadsense, and, as history, the number of
      barrier calls it has entered. */
  datatype Thread = Thread(pc: Pc, threadsense: bool, calls: nat)

  /** The statics count and sense, the threads, and, as history, the number of releases. */
  datatype State = State(count: int, sense: bool, threads: seq<Thread>, rounds: nat)

  function Init(ncores: nat): State {
    State(0, false, seq(ncores, i => Thread(Outside, false, 0)), 0)
  }

  /** Thread t executes its next statement; there are no threads beyond |threads|. */
  function Step(s: State, t: nat): (s': State)
    ensures |s'.threads| == |s.threads|
  {
    if |s.threads| <= t then s else
    var th := s.threads[t];
    match th.pc
    case Outside =>
      s.(threads := s.threads[t := Thread(Adding, !th.threadsense, th.calls + 1)])
    case Adding =>
      s.(count := s.count + 1,
         threads := s.threads[t := th.(pc := if s.count == |s.threads| - 1 then Resetting else Spinning)])
    case Resetting =>
      s.(count := 0, threads := s.threads[t := th.(pc := Releasing)])
    case Releasing =>
      s.(sense := th.threadsense, threads := s.threads[t := th.(pc := Outside)], rounds := s.rounds + 1)
    case Spinning =>
      if s.sense != th.threadsense then s else s.(threads := s.threads[t := th.(pc := Outside)])
  }

  /** A finite run: the threads of the schedule take one step each, in order. */
  function Run(s: State, schedule: seq<nat>): (s': State)
    ensures |s'.threads| == |s.threads|
  {
    if schedule == [] then s
    else Step(Run(s, schedule[..|schedule| - 1]), schedule[|schedule| - 1])
  }

  // ---------- counting arrivals ----------

  /** The thread has done the fetch-and-add of the round in progress. */
  predicate Arrived(th: Thread, rounds: nat) {
    th.calls == rounds + 1 && (th.pc == Spinning || th.pc == Resetting || th.pc == Releasing)
  }

  function Arrivals(threads: seq<Thread>, rounds: nat): (n: nat)
    ensures n <= |threads|
  {
    if threads == [] then 0
    else Arrivals(threads[..|threads| - 1], rounds) + if Arrived(threads[|threads| - 1], rounds) then 1 else 0
  }

  lemma {:induction false} ArrivalsUpdate(threads: seq<Thread>, rounds: nat, t: nat, th: Thread)
    requires t < |threads|
    ensures Arrivals(threads[t := th], rounds)
         == Arrivals(threads, rounds) - (if Arrived(threads[t], rounds) then 1 else 0) + if Arrived(th, rounds) then 1
             else 0
  {
    var k := |threads| - 1;
    if t < k {
      ArrivalsUpdate(threads[..k], rounds, t, th);
      assert threads[t := th][..k] == threads[..k][t := th];
    } else {
      assert threads[t := th][..k] == threads[..k];
    }
  }

  lemma {:induction false} ArrivalsAll(threads: seq<Thread>, rounds: nat)
    ensures Arrivals(threads, rounds) == |threads| <==> forall t :: 0 <= t < |threads| ==> Arrived(threads[t], rounds)
  {
    if threads != [] {
      var k := |threads| - 1;
      ArrivalsAll(threads[..k], rounds);
      assert forall t :: 0 <= t < k ==> threads[..k][t] == threads[t];
    }
  }

  lemma {:induction false} ArrivalsNone(threads: seq<Thread>, rounds: nat)
    requires forall t :: 0 <= t < |threads| ==> !Arrived(threads[t], rounds)
    ensures Arrivals(threads, rounds) == 0
  {
    if threads != [] {
      ArrivalsNone(threads[..|threads| - 1], rounds);
    }
  }

  // ---------- the invariant ----------

  predicate Odd(n: nat) { n % 2 == 1 }

  /** The thread is at the two statements only the last arrival executes. */
  predicate Closer(th: Thread) { th.pc == Resetting || th.pc == Releasing }

  predicate ThreadOk(th: Thread, rounds: nat) {
    && th.threadsense == Odd(th.calls)
    && match th.pc
       case Outside => th.calls == rounds
       case Spinning => th.calls == rounds || th.calls == rounds + 1
       case _ => th.calls == rounds + 1
  }

  /** The thread has arrived and spins for the round in progress to be released. */
  predicate Waiting(th: Thread, rounds: nat) { th.pc == Spinning && th.calls == rounds + 1 }

  ghost predicate ThreadsOk(s: State) {
    && |s.threads| > 0
    && s.sense == Odd(s.rounds)
    && forall t :: 0 <= t < |s.threads| ==> ThreadOk(s.threads[t], s.rounds)
  }

  /** Arrivals are being counted: nobody is closing the round, and somebody has yet to arrive. */
  ghost predicate Open(s: State) {
    && (forall t :: 0 <= t < |s.threads| ==> !Closer(s.threads[t]))
    && s.count == Arrivals(s.threads, s.rounds) < |s.threads|
  }

  /** Thread c, the last to arrive, is closing the round while all others wait for it. */
  ghost predicate Closing(s: State, c: nat) {
    && c < |s.threads| && Closer(s.threads[c])
    && s.count == (if s.threads[c].pc == Resetting then |s.threads| else 0)
    && forall u :: 0 <= u < |s.threads| && u != c ==> Waiting(s.threads[u], s.rounds)
  }

  ghost predicate Inv(s: State) {
    ThreadsOk(s) && (Open(s) || exists c: nat :: Closing(s, c))
  }

  lemma InitInv(ncores: nat)
    requires ncores > 0
    ensures Inv(Init(ncores))
  {
    ArrivalsNone(Init(ncores).threads, 0);
  }

  /** A thread that is not closing takes a step that keeps it so, while others may still arrive. */
  lemma OpenStep(s: State, t: nat)
    requires Inv(s) && t < |s.threads|
    requires s.threads[t].pc == Outside || s.threads[t].pc == Adding
        || (s.threads[t].pc == Spinning && s.threads[t].calls == s.rounds)
    ensures Open(s)
  {
  }

  lemma EnterInv(s: State, t: nat)
    requires Inv(s) && t < |s.threads| && s.threads[t].pc == Outside
    ensures Inv(Step(s, t))
  {
    OpenStep(s, t);
    ArrivalsUpdate(s.threads, s.rounds, t, Step(s, t).threads[t]);
  }

  lemma AddInv(s: State, t: nat)
    requires Inv(s) && t < |s.threads| && s.threads[t].pc == Adding
    ensures Inv(Step(s, t))
  {
    OpenStep(s, t);
    var s' := Step(s, t);
    ArrivalsUpdate(s.threads, s.rounds, t, s'.threads[t]);
    if s'.threads[t].pc == Resetting {
      ArrivalsAll(s'.threads, s.rounds);
      forall u | 0 <= u < |s.threads| && u != t
        ensures Waiting(s'.threads[u], s'.rounds)
      {
        assert Arrived(s'.threads[u], s.rounds) && !Closer(s.threads[u]);
      }
      assert Closing(s', t);
    } else {
      assert Open(s');
    }
  }

  lemma ResetInv(s: State, t: nat)
    requires Inv(s) && t < |s.threads| && s.threads[t].pc == Resetting
    ensures Closing(s, t) && Inv(Step(s, t))
  {
    assert Closing(Step(s, t), t);
  }

  lemma ReleaseInv(s: State, t: nat)
    requires Inv(s) && t < |s.threads| && s.threads[t].pc == Releasing
    ensures Closing(s, t) && Inv(Step(s, t))
  {
    var s' := Step(s, t);
    ArrivalsNone(s'.threads, s'.rounds);
    assert Open(s');
  }

  lemma SpinInv(s: State, t: nat)
    requires Inv(s) && t < |s.threads| && s.threads[t].pc == Spinning
    ensures Inv(Step(s, t))
  {
    if Step(s, t) != s {
      OpenStep(s, t);
      ArrivalsUpdate(s.threads, s.rounds, t, Step(s, t).threads[t]);
    }
  }

  /** Every step of every thread keeps the invariant. */
  lemma StepInv(s: State, t: nat)
    requires Inv(s)
    ensures Inv(Step(s, t))
  {
    hide Inv;
    if t < |s.threads| {
      match s.threads[t].pc
      case Outside => EnterInv(s, t);
      case Adding => AddInv(s, t);
      case Resetting => ResetInv(s, t);
      case Releasing => ReleaseInv(s, t);
      case Spinning => SpinInv(s, t);
    }
  }

  lemma {:induction false} RunInv(s: State, schedule: seq<nat>)
    requires Inv(s)
    ensures Inv(Run(s, schedule))
  {
    if schedule != [] {
      RunInv(s, schedule[..|schedule| - 1]);
      StepInv(Run(s, schedule[..|schedule| - 1]), schedule[|schedule| - 1]);
    }
  }

  // ---------- safety of every run ----------

  /** How many barrier calls the thread has returned from. */
  function Returned(th: Thread): int {
    if th.pc == Outside then th.calls else th.calls - 1
  }

  /** In every state of every run no thread has returned from its r-th call unless every thread has
      entered its r-th call, and no two threads are more than one round apart. */
  lemma Safety(ncores: nat, schedule: seq<nat>, t: nat, u: nat)
    requires t < ncores && u < ncores
    ensures var threads := Run(Init(ncores), schedule).threads;
            Returned(threads[t]) <= threads[u].calls && threads[t].calls <= threads[u].calls + 1
  {
    InitInv(ncores);
    RunInv(Init(ncores), schedule);
    var s := Run(Init(ncores), schedule);
    assert ThreadOk(s.threads[t], s.rounds) && ThreadOk(s.threads[u], s.rounds);
  }

  /** In every state of every run `sense` is the parity of the rounds completed, and `count` stays
      within 0..ncores and is the number of threads that have arrived for the round in progress,
      except between the reset and the release, when it is already 0. */
  lemma CountIsArrivals(ncores: nat, schedule: seq<nat>)
    requires ncores > 0
    ensures var s := Run(Init(ncores), schedule);
            && s.sense == Odd(s.rounds) && 0 <= s.count <= ncores
            && s.count == if exists t :: 0 <= t < ncores && s.threads[t].pc == Releasing then 0
                          else Arrivals(s.threads, s.rounds)
  {
    InitInv(ncores);
    RunInv(Init(ncores), schedule);
    var s := Run(Init(ncores), schedule);
    if !Open(s) {
      var c: nat :| Closing(s, c);
      ArrivalsAll(s.threads, s.rounds);
    }
  }

  /** Whenever a thread is about to reset `count`, all ncores threads have arrived and every other
      thread is still spinning in the same round: no arrival of the next round can be erased. */
  lemma ResetErasesNothing(ncores: nat, schedule: seq<nat>, t: nat)
    requires t < ncores && Run(Init(ncores), schedule).threads[t].pc == Resetting
    ensures var s := Run(Init(ncores), schedule);
            && s.count == ncores
            && forall u :: 0 <= u < ncores && u != t ==>
                 s.threads[u].pc == Spinning && s.threads[u].calls == s.threads[t].calls
                     && s.sense != s.threads[u].threadsense
  {
    InitInv(ncores);
    RunInv(Init(ncores), schedule);
    ResetInv(Run(Init(ncores), schedule), t);
  }

  // ---------- progress of every fair run ----------

  /** State i of the infinite run in which thread f(j) takes step j. */
  function StateAt(s: State, f: nat -> nat, i: nat): (r: State)
    ensures |r.threads| == |s.threads|
  {
    if i == 0 then s else Step(StateAt(s, f, i - 1), f(i - 1))
  }

  ghost predicate TurnAfter(f: nat -> nat, t: nat, i: nat) {
    exists j: nat :: i <= j && f(j) == t
  }

  /** Every thread is scheduled again and again. */
  ghost predicate Fair(f: nat -> nat, ncores: nat) {
    forall t: nat, i: nat :: t < ncores ==> TurnAfter(f, t, i)
  }

  lemma {:induction false} StateAtInv(s: State, f: nat -> nat, i: nat)
    requires Inv(s)
    ensures Inv(StateAt(s, f, i))
  {
    hide Inv;
    if i > 0 {
      StateAtInv(s, f, i - 1);
      StepInv(StateAt(s, f, i - 1), f(i - 1));
    }
  }

  /** How far a thread is from having done its part in the round in progress. */
  function Distance(th: Thread, rounds: nat): nat {
    match th.pc
    case Outside => 4
    case Adding => 3
    case Resetting => 2
    case Releasing => 1
    case Spinning => if th.calls == rounds then 5 else 0
  }

  function TotalDistance(threads: seq<Thread>, rounds: nat): nat {
    if threads == [] then 0
    else TotalDistance(threads[..|threads| - 1], rounds) + Distance(threads[|threads| - 1], rounds)
  }

  lemma {:induction false} TotalDistanceUpdate(threads: seq<Thread>, rounds: nat, t: nat, th: Thread)
    requires t < |threads|
    ensures TotalDistance(threads[t := th], rounds)
         == TotalDistance(threads, rounds) - Distance(threads[t], rounds) + Distance(th, rounds)
  {
    var k := |threads| - 1;
    if t < k {
      TotalDistanceUpdate(threads[..k], rounds, t, th);
      assert threads[t := th][..k] == threads[..k][t := th];
    } else {
      assert threads[t := th][..k] == threads[..k];
    }
  }

  /** Every step that is not a futile look at `sense` brings the round nearer its release. */
  lemma StepDecreases(s: State, t: nat)
    requires Inv(s) && Step(s, t) != s
    ensures || Step(s, t).rounds == s.rounds + 1
            || (Step(s, t).rounds == s.rounds
                && TotalDistance(Step(s, t).threads, s.rounds) < TotalDistance(s.threads, s.rounds))
  {
    assert ThreadOk(s.threads[t], s.rounds);
    TotalDistanceUpdate(s.threads, s.rounds, t, Step(s, t).threads[t]);
  }

  /** There is always a thread whose next step is not a futile look at `sense`: no deadlock. */
  lemma SomeoneMoves(s: State) returns (t: nat)
    requires Inv(s)
    ensures t < |s.threads| && Step(s, t) != s
  {
    if c: nat :| Closing(s, c) {
      t := c;
      assert Step(s, t).threads[t].pc != s.threads[t].pc;
    } else {
      ArrivalsAll(s.threads, s.rounds);
      t :| t < |s.threads| && !Arrived(s.threads[t], s.rounds);
      assert ThreadOk(s.threads[t], s.rounds) && !Closer(s.threads[t]);
      assert Step(s, t).threads[t].pc != s.threads[t].pc;
    }
  }

  /** If thread t would change state i and has its turn at step j, the state changes by then. */
  lemma {:induction false} ChangeBy(s: State, f: nat -> nat, i: nat, j: nat, t: nat) returns (k: nat)
    requires i <= j && f(j) == t && Step(StateAt(s, f, i), t) != StateAt(s, f, i)
    ensures StateAt(s, f, k) == StateAt(s, f, i) && StateAt(s, f, k + 1) != StateAt(s, f, k) && i <= k <= j
    decreases j - i
  {
    if StateAt(s, f, i + 1) != StateAt(s, f, i) {
      k := i;
    } else {
      k := ChangeBy(s, f, i + 1, j, t);
    }
  }

  /** Under a fair schedule the round in progress is released. */
  lemma {:induction false} RoundCompletes(s: State, f: nat -> nat, i: nat) returns (j: nat)
    requires Inv(s) && Fair(f, |s.threads|)
    ensures i < j && StateAt(s, f, j).rounds > StateAt(s, f, i).rounds
    decreases TotalDistance(StateAt(s, f, i).threads, StateAt(s, f, i).rounds)
  {
    hide Inv;
    StateAtInv(s, f, i);
    var now := StateAt(s, f, i);
    var t := SomeoneMoves(now);
    assert TurnAfter(f, t, i);
    var turn: nat :| i <= turn && f(turn) == t;
    var k := ChangeBy(s, f, i, turn, t);
    StepDecreases(now, f(k));
    if StateAt(s, f, k + 1).rounds > now.rounds {
      j := k + 1;
    } else {
      j := RoundCompletes(s, f, k + 1);
    }
  }

  /** Under a fair schedule in which the threads keep calling barrier, every call returns. */
  lemma EveryCallReturns(s: State, f: nat -> nat, i: nat, t: nat) returns (j: nat)
    requires Inv(s) && Fair(f, |s.threads|) && t < |s.threads|
    ensures i < j && Returned(StateAt(s, f, j).threads[t]) >= StateAt(s, f, i).threads[t].calls
  {
    var mid := RoundCompletes(s, f, i);
    j := RoundCompletes(s, f, mid);
    StateAtInv(s, f, i);
    StateAtInv(s, f, j);
    assert ThreadOk(StateAt(s, f, i).threads[t], StateAt(s, f, i).rounds);
    assert ThreadOk(StateAt(s, f, j).threads[t], StateAt(s, f, j).rounds);
  }

  // ---------- the statements themselves ----------

  /** The machine that runs barrier(): the shared statics and the threads, updated in place. */
  class Machine {
    var count: int
    var sense: bool
    var threads: seq<Thread>
    ghost var rounds: nat

    ghost function Abstract(): State
      reads this
    {
      State(count, sense, threads, rounds)
    }

    constructor (ncores: nat)
      ensures Abstract() == Init(ncores)
    {
      count, sense, rounds := 0, false, 0;
      threads := seq(ncores, i => Thread(Outside, false, 0));
    }

    /** Lines 68 to 74 of util.h, one statement of thread t at a time. */
    method Execute(t: nat)
      modifies this
      ensures Abstract() == Step(old(Abstract()), t)
    {
      if t < |threads| {
        var th := threads[t];
        match th.pc
        case Outside =>
          threads := threads[t := Thread(Adding, !th.threadsense, th.calls + 1)];
        case Adding =>
          var fetched := count;
          count := count + 1;
          if fetched == |threads| - 1 {
            threads := threads[t := th.(pc := Resetting)];
          } else {
            threads := threads[t := th.(pc := Spinning)];
          }
        case Resetting =>
          count := 0;
          threads := threads[t := th.(pc := Releasing)];
        case Releasing =>
          sense, rounds := th.threadsense, rounds + 1;
          threads := threads[t := th.(pc := Outside)];
        case Spinning =>
          if sense == th.threadsense {
            threads := threads[t := th.(pc := Outside)];
          }
      }
    }

    /** Any interleaving. */
    method ExecuteAll(schedule: seq<nat>)
      modifies this
      ensures Abstract() == Run(old(Abstract()), schedule)
    {
      var i := 0;
      while i < |schedule|
        invariant 0 <= i <= |schedule| && Abstract() == Run(old(Abstract()), schedule[..i])
      {
        Execute(schedule[i]);
        i := i + 1;
        assert schedule[..i][..i - 1] == schedule[..i - 1];
      }
      assert schedule[..i] == schedule;
    }
  }
}
