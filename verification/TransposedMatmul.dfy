/** riscv-tests/mt/ae_matmul.c: a matrix product by ncores cores that first build the transpose of
    B together in the static BB, with a barrier after each column, and then compute C from it,
    with a barrier after each group of four cells.

    The cores interleave in any order.  One step of a core is one store to shared memory, one
    iteration of the innermost loop, one statement of barrier(), or the loop control between. */
module TransposedMatmul {
  import opened Arithmetic
  import opened Strided
  import Barrier

  /** The arguments of matmul; a and b are the lda x lda matrices A and B. */
  datatype Job = Job(lda: nat, ncores: nat, a: View, b: View)

  /** Four accumulators, c1 to c4. */
  datatype Four = Four(c1: int, c2: int, c3: int, c4: int) {
    function Nth(m: int): int { if m <= 0 then c1 else if m == 1 then c2 else if m == 2 then c3 else c4 }
  }

  /** Where a core is in matmul.  Transpose(k, i) is at the test of the loop over i, Sum(i, j, k)
      at the test of the innermost loop, Store(i, j, m) about to store cell i+m of row j; in the
      two Sync states the core is inside its barrier call. */
  datatype Core =
    | Transpose(k: nat, i: nat)
    | TransposeSync(k: nat)
    | Sum(i: nat, j: nat, k: nat, acc: Four)
    | Store(i: nat, j: nat, m: nat, acc: Four)
    | MultiplySync(i: nat, j: nat)
    | Done

  /** The shared memory, the barrier, and the position of every core. */
  datatype State = State(bb: seq<int>, c: seq<int>, bar: Barrier.State, cores: seq<Core>)

  function Width(job: Job): nat { if job.ncores == 0 then 0 else job.lda / job.ncores }
  function Start(job: Job, t: nat): nat { t * Width(job) }
  function End(job: Job, t: nat): nat { (t + 1) * Width(job) }

  /** Storing v at an address. */
  function Put(s: seq<int>, q: int, v: int): (s': seq<int>)
    ensures |s'| == |s|
  {
    if 0 <= q < |s| then s[q := v] else s
  }

  /** c += a1*b[k+0] through c += a8*b[k+7], with b = &BB[i*lda] and a the row j of A. */
  function Eight(job: Job, bb: View, j: int, i: int, k: int, c: int): int {
    c + job.a.At(j, k) * bb.At(i, k) + job.a.At(j, k + 1) * bb.At(i, k + 1)
      + job.a.At(j, k + 2) * bb.At(i, k + 2) + job.a.At(j, k + 3) * bb.At(i, k + 3)
      + job.a.At(j, k + 4) * bb.At(i, k + 4) + job.a.At(j, k + 5) * bb.At(i, k + 5)
      + job.a.At(j, k + 6) * bb.At(i, k + 6) + job.a.At(j, k + 7) * bb.At(i, k + 7)
  }

  /** The body of the innermost loop. */
  function SumEight(job: Job, s: seq<int>, i: int, j: int, k: int, acc: Four): Four {
    var bb := View(s, 0, job.lda);
    Four(Eight(job, bb, j, i, k, acc.c1), Eight(job, bb, j, i + 1, k, acc.c2),
         Eight(job, bb, j, i + 2, k, acc.c3), Eight(job, bb, j, i + 3, k, acc.c4))
  }

  /** The loops over i and j, entered at (i, j): the next group of four cells, if there is one. */
  function Next(job: Job, t: nat, i: nat, j: nat): Core {
    var zero := Four(0, 0, 0, 0);
    if i < job.lda && j < End(job, t) then Sum(i, j, 0, zero)
    else if i + 4 < job.lda && Start(job, t) < End(job, t) then Sum(i + 4, Start(job, t), 0, zero)
    else Done
  }

  /** Core t is inside barrier(); when it returns the core goes on as `after`. */
  function InBarrier(s: State, t: nat, after: Core): State
    requires t < |s.cores| == |s.bar.threads|
  {
    var bar := Barrier.Step(s.bar, t);
    s.(bar := bar, cores := if bar.threads[t].pc.Outside? then s.cores[t := after] else s.cores)
  }

  /** Core t takes its next step. */
  function Step(job: Job, s: State, t: nat): (s': State)
    ensures |s'.cores| == |s.cores| && |s'.bar.threads| == |s.bar.threads|
  {
    if |s.cores| <= t || |s.bar.threads| != |s.cores| then s else
    match s.cores[t]
    case Transpose(k, i) =>
      if job.lda <= k then s.(cores := s.cores[t := Next(job, t, 0, Start(job, t))])
      else if i < End(job, t) then
        s.(bb := Put(s.bb, i * job.lda + k, job.b.At(k, i)), cores := s.cores[t := Transpose(k, i + 1)])
      else s.(bar := Barrier.Step(s.bar, t), cores := s.cores[t := TransposeSync(k)])
    case TransposeSync(k) => InBarrier(s, t, Transpose(k + 1, Start(job, t)))
    case Sum(i, j, k, acc) =>
      if k < job.lda then s.(cores := s.cores[t := Sum(i, j, k + 8, SumEight(job, s.bb, i, j, k, acc))])
      else s.(cores := s.cores[t := Store(i, j, 0, acc)])
    case Store(i, j, m, acc) =>
      if m < 4 then
        s.(c := Put(s.c, i + m + j * job.lda, acc.Nth(m)), cores := s.cores[t := Store(i, j, m + 1, acc)])
      else s.(bar := Barrier.Step(s.bar, t), cores := s.cores[t := MultiplySync(i, j)])
    case MultiplySync(i, j) => InBarrier(s, t, Next(job, t, i, j + 1))
    case Done => s
  }

  // ---------- the partition of the rows ----------

  /** The sizes for which the source divides evenly: whole groups of eight and equal shares. */
  ghost predicate Even(job: Job) {
    job.ncores > 0 && job.lda % job.ncores == 0 && job.lda % 8 == 0
  }

  lemma Eights(job: Job)
    requires Even(job)
    ensures job.lda % 8 == 0
  {
  }

  lemma Ranges(job: Job, t: nat)
    requires Even(job) && t < job.ncores
    ensures End(job, t) == Start(job, t) + Width(job) && End(job, t) <= job.lda
    ensures job.lda > 0 ==> Width(job) > 0
  {
    assert job.ncores * Width(job) == job.lda;
    MulMonotone(t + 1, job.ncores, Width(job));
    MulDistributes(t, 1, Width(job));
  }

  /** Every row belongs to a core. */
  lemma Owner(job: Job, i: int) returns (t: nat)
    requires Even(job) && 0 <= i < job.lda
    ensures t < job.ncores && Start(job, t) <= i < End(job, t)
  {
    var w := Width(job);
    assert job.ncores * w == job.lda;
    Ranges(job, 0);
    t := i / w;
    assert i == t * w + i % w;
    if job.ncores <= t {
      MulMonotone(job.ncores, t, w);
    }
    MulDistributes(t, 1, w);
  }

  // ---------- the invariant ----------

  /** How many barrier calls the source has made by this position. */
  function Calls(job: Job, t: nat, core: Core): int {
    match core
    case Transpose(k, i) => k
    case TransposeSync(k) => k + 1
    case Sum(i, j, k, acc) => job.lda + i / 4 * Width(job) + (j - Start(job, t))
    case Store(i, j, m, acc) => job.lda + i / 4 * Width(job) + (j - Start(job, t))
    case MultiplySync(i, j) => job.lda + i / 4 * Width(job) + (j - Start(job, t)) + 1
    case Done => job.lda + job.lda / 4 * Width(job)
  }

  predicate InSync(core: Core) { core.TransposeSync? || core.MultiplySync? }

  predicate GroupOk(job: Job, t: nat, i: nat, j: nat) {
    i < job.lda && i % 4 == 0 && Start(job, t) <= j < End(job, t)
  }

  /** The accumulators hold the first k terms of cells i..i+3 of row j of A*B. */
  ghost predicate Partial(job: Job, i: int, j: int, k: int, acc: Four) {
    forall m :: 0 <= m < 4 ==> acc.Nth(m) == Dot(job.a, job.b, j, i + m, 0, k)
  }

  ghost predicate PositionOk(job: Job, t: nat, core: Core) {
    match core
    case Transpose(k, i) => k <= job.lda && Start(job, t) <= i <= End(job, t)
    case TransposeSync(k) => k < job.lda
    case Sum(i, j, k, acc) => GroupOk(job, t, i, j) && k <= job.lda && k % 8 == 0 && Partial(job, i, j, k, acc)
    case Store(i, j, m, acc) => GroupOk(job, t, i, j) && m <= 4 && Partial(job, i, j, job.lda, acc)
    case MultiplySync(i, j) => GroupOk(job, t, i, j)
    case Done => true
  }

  /** The core is inside barrier() exactly in its Sync positions, and has made as many calls as its
      position says, after the r0 calls made before matmul. */
  predicate InStep(job: Job, r0: nat, t: nat, core: Core, th: Barrier.Thread) {
    (InSync(core) <==> !th.pc.Outside?) && th.calls == r0 + Calls(job, t, core)
  }

  /** Core t has stored cell (i, k) of BB. */
  predicate Written(core: Core, i: int, k: int) {
    match core
    case Transpose(k0, i0) => k < k0 || (k == k0 && i < i0)
    case TransposeSync(k0) => k <= k0
    case _ => true
  }

  ghost predicate BbOk(job: Job, bb: seq<int>, t: nat, core: Core) {
    forall i, k :: Start(job, t) <= i < End(job, t) && 0 <= k < job.lda && Written(core, i, k) ==>
      View(bb, 0, job.lda).At(i, k) == job.b.At(k, i)
  }

  /** Core t has stored cell i of row j of C. */
  predicate Computed(core: Core, i: int, j: int) {
    match core
    case Transpose(_, _) => false
    case TransposeSync(_) => false
    case Sum(i0, j0, _, _) => i < i0 || (i < i0 + 4 && j < j0)
    case Store(i0, j0, m, _) => i < i0 || (i < i0 + 4 && j < j0) || (i < i0 + m && j == j0)
    case MultiplySync(i0, j0) => i < i0 || (i < i0 + 4 && j <= j0)
    case Done => true
  }

  ghost predicate COk(job: Job, c: seq<int>, t: nat, core: Core) {
    forall i, j :: 0 <= i < job.lda && Start(job, t) <= j < End(job, t) && Computed(core, i, j) ==>
      View(c, 0, job.lda).At(j, i) == Dot(job.a, job.b, j, i, 0, job.lda)
  }

  /** s' has the size of s and, beyond the matrix, its cells. */
  ghost predicate Beyond(job: Job, s: seq<int>, s': seq<int>) {
    |s| == |s'| && forall q :: job.lda * job.lda <= q < |s| ==> s'[q] == s[q]
  }

  ghost predicate CoreOk(job: Job, r0: nat, s: State, t: nat)
    requires t < |s.cores| == |s.bar.threads|
  {
    && PositionOk(job, t, s.cores[t]) && InStep(job, r0, t, s.cores[t], s.bar.threads[t])
    && BbOk(job, s.bb, t, s.cores[t]) && COk(job, s.c, t, s.cores[t])
  }

  /** s0 is the state in which matmul was called, after r0 rounds of the barrier. */
  ghost predicate Inv(job: Job, s0: State, s: State) {
    && Barrier.Inv(s.bar) && |s.cores| == |s.bar.threads| == job.ncores
    && (forall t :: 0 <= t < job.ncores ==> CoreOk(job, s0.bar.rounds, s, t))
    && Beyond(job, s0.bb, s.bb) && Beyond(job, s0.c, s.c)
  }

  /** Every core is at the first statement of matmul, outside the barrier, BB and C hold anything. */
  ghost predicate Called(job: Job, s: State) {
    && Even(job) && Barrier.Inv(s.bar) && |s.cores| == |s.bar.threads| == job.ncores
    && (forall t :: 0 <= t < job.ncores ==> s.cores[t] == Transpose(0, Start(job, t)) && s.bar.threads[t].pc.Outside?)
    && job.lda * job.lda <= |s.bb| && job.lda * job.lda <= |s.c|
  }

  lemma CoreAt(job: Job, s0: State, s: State, t: nat)
    requires Inv(job, s0, s) && t < job.ncores
    ensures |s.cores| == |s.bar.threads| == job.ncores && CoreOk(job, s0.bar.rounds, s, t)
  {
  }

  lemma CalledInv(job: Job, s: State)
    requires Called(job, s)
    ensures Inv(job, s, s)
  {
    forall t | 0 <= t < job.ncores
      ensures CoreOk(job, s.bar.rounds, s, t)
    {
      Ranges(job, t);
      assert Barrier.ThreadOk(s.bar.threads[t], s.bar.rounds);
    }
  }

  // ---------- the barrier separates writing BB from reading it ----------

  /** The position is past the last barrier of the transposition. */
  predicate Multiplying(core: Core) { core.Sum? || core.Store? || core.MultiplySync? || core.Done? }

  lemma MultiplyingCalls(job: Job, t: nat, core: Core)
    requires Even(job) && t < job.ncores && PositionOk(job, t, core) && Multiplying(core)
    ensures Calls(job, t, core) >= job.lda + if InSync(core) then 1 else 0
  {
    Ranges(job, t);
    if core.Done? {
      MulMonotone(0, job.lda / 4, Width(job));
    } else {
      MulMonotone(0, core.i / 4, Width(job));
    }
  }

  lemma FewCalls(job: Job, t: nat, core: Core, i: int, k: int)
    requires PositionOk(job, t, core) && Calls(job, t, core) >= job.lda && 0 <= k < job.lda
    ensures Written(core, i, k)
  {
  }

  /** Once one core is past the transposition every core has stored all its part of BB. */
  lemma AllWritten(job: Job, s0: State, s: State, t: nat, u: nat)
    requires Even(job) && Inv(job, s0, s) && t < job.ncores && u < job.ncores && Multiplying(s.cores[t])
    ensures Calls(job, u, s.cores[u]) >= job.lda
  {
    hide BbOk, COk, Start, End, Calls;
    assert CoreOk(job, s0.bar.rounds, s, t) && CoreOk(job, s0.bar.rounds, s, u);
    MultiplyingCalls(job, t, s.cores[t]);
    assert Barrier.ThreadOk(s.bar.threads[t], s.bar.rounds) && Barrier.ThreadOk(s.bar.threads[u], s.bar.rounds);
  }

  /** BB is the transpose of B. */
  ghost predicate IsTranspose(job: Job, bb: seq<int>) {
    forall i, k :: 0 <= i < job.lda && 0 <= k < job.lda ==> View(bb, 0, job.lda).At(i, k) == job.b.At(k, i)
  }

  /** Every read of BB sees the transpose of B: whenever a core is past the transposition, all of BB
      is in place, whoever stored it. */
  lemma TransposeSeen(job: Job, s0: State, s: State, t: nat)
    requires Even(job) && Inv(job, s0, s) && t < job.ncores && Multiplying(s.cores[t])
    ensures IsTranspose(job, s.bb)
  {
    hide COk, Start, End, Calls, View.At;
    forall i, k | 0 <= i < job.lda && 0 <= k < job.lda
      ensures View(s.bb, 0, job.lda).At(i, k) == job.b.At(k, i)
    {
      var u := Owner(job, i);
      AllWritten(job, s0, s, t, u);
      assert CoreOk(job, s0.bar.rounds, s, u);
      FewCalls(job, u, s.cores[u], i, k);
    }
  }

  // ---------- stores ----------

  /** Storing into row r, column c of an lda x lda matrix changes that cell alone. */
  lemma PutCell(s: seq<int>, lda: nat, r: int, c: int, v: int, r': int, c': int)
    requires 0 <= r < lda && 0 <= c < lda && 0 <= c' < lda && lda * lda <= |s|
    ensures View(Put(s, r * lda + c, v), 0, lda).At(r', c') ==
            if r' == r && c' == c then v else View(s, 0, lda).At(r', c')
    ensures 0 <= r * lda + c < lda * lda
  {
    MulMonotone(r + 1, lda, lda);
    MulMonotone(0, r, lda);
    MulDistributes(r, 1, lda);
    Coordinates(r' * lda + c', 0, lda, r', c');
    Coordinates(r * lda + c, 0, lda, r, c);
  }

  lemma BbPut(job: Job, bb: seq<int>, i: int, k: int, u: nat, core: Core)
    requires Even(job) && u < job.ncores && 0 <= i < job.lda && 0 <= k < job.lda && job.lda * job.lda <= |bb|
    requires BbOk(job, bb, u, core)
    ensures BbOk(job, Put(bb, i * job.lda + k, job.b.At(k, i)), u, core)
  {
    var bb' := Put(bb, i * job.lda + k, job.b.At(k, i));
    Ranges(job, u);
    hide Start, End, Put;
    forall i', k' | Start(job, u) <= i' < End(job, u) && 0 <= k' < job.lda && Written(core, i', k')
      ensures View(bb', 0, job.lda).At(i', k') == job.b.At(k', i')
    {
      PutCell(bb, job.lda, i, k, job.b.At(k, i), i', k');
      hide View.At;
    }
  }

  lemma CPut(job: Job, c: seq<int>, j: int, i: int, v: int, u: nat, core: Core)
    requires 0 <= i < job.lda && 0 <= j < job.lda && job.lda * job.lda <= |c|
    requires v == Dot(job.a, job.b, j, i, 0, job.lda)
    requires COk(job, c, u, core)
    ensures COk(job, Put(c, j * job.lda + i, v), u, core)
  {
    var c' := Put(c, j * job.lda + i, v);
    hide Start, End, Put, Dot;
    forall i', j' | 0 <= i' < job.lda && Start(job, u) <= j' < End(job, u) && Computed(core, i', j')
      ensures View(c', 0, job.lda).At(j', i') == Dot(job.a, job.b, j', i', 0, job.lda)
    {
      PutCell(c, job.lda, j, i, v, j', i');
      hide View.At;
    }
  }

  // ---------- every step keeps the invariant ----------

  /** What a step of core t may do to the rest of the state. */
  ghost predicate Local(job: Job, s: State, s': State, t: nat) {
    && |s'.cores| == |s.cores| && |s'.bar.threads| == |s.bar.threads| == |s.cores|
    && (forall u :: 0 <= u < |s.cores| && u != t ==> s'.cores[u] == s.cores[u] && s'.bar.threads[u] == s.bar.threads[u])
    && (forall u: nat :: u < |s.cores| && BbOk(job, s.bb, u, s.cores[u]) ==> BbOk(job, s'.bb, u, s.cores[u]))
    && (forall u: nat :: u < |s.cores| && COk(job, s.c, u, s.cores[u]) ==> COk(job, s'.c, u, s.cores[u]))
    && Beyond(job, s.bb, s'.bb) && Beyond(job, s.c, s'.c)
  }

  lemma Recombine(job: Job, s0: State, s: State, s': State, t: nat)
    requires Inv(job, s0, s) && t < job.ncores && Local(job, s, s', t)
    requires Barrier.Inv(s'.bar) && CoreOk(job, s0.bar.rounds, s', t)
    ensures Inv(job, s0, s')
  {
    hide BbOk, COk, PositionOk, InStep, Barrier.Inv;
    forall u | 0 <= u < job.ncores
      ensures CoreOk(job, s0.bar.rounds, s', u)
    {
      assert CoreOk(job, s0.bar.rounds, s, u);
    }
  }

  /** A core that touches neither shared memory nor the barrier. */
  lemma PrivateLocal(job: Job, s: State, t: nat, core: Core)
    requires t < |s.cores| == |s.bar.threads|
    ensures Local(job, s, s.(cores := s.cores[t := core]), t)
  {
    hide BbOk, COk;
  }

  lemma TransposeStore(job: Job, s0: State, s: State, t: nat)
    requires Even(job) && Inv(job, s0, s) && t < job.ncores && job.lda * job.lda <= |s.bb|
    requires s.cores[t].Transpose? && s.cores[t].k < job.lda && s.cores[t].i < End(job, t)
    ensures Inv(job, s0, Step(job, s, t))
  {
    Eights(job);
    hide Even;
    var k, i := s.cores[t].k, s.cores[t].i;
    var s' := Step(job, s, t);
    CoreAt(job, s0, s, t);
    hide Inv;
    Ranges(job, t);
    forall u: nat | u < |s.cores| && BbOk(job, s.bb, u, s.cores[u])
      ensures BbOk(job, s'.bb, u, s.cores[u])
    {
      BbPut(job, s.bb, i, k, u, s.cores[u]);
    }
    PutCell(s.bb, job.lda, i, k, job.b.At(k, i), i, k);
    hide Start, End, Width, COk, View.At, Barrier.Inv, Put, Dot;
    assert Beyond(job, s.bb, s'.bb) by { PutBeyond(job, s.bb, i * job.lda + k, job.b.At(k, i)); }
    assert BbOk(job, s'.bb, t, s.cores[t]);
    assert BbOk(job, s'.bb, t, s'.cores[t]);
    assert COk(job, s'.c, t, s'.cores[t]) by { NothingComputed(job, s.c, t, s'.cores[t]); }
    Recombine(job, s0, s, s', t);
  }

  lemma PutBeyond(job: Job, s: seq<int>, q: int, v: int)
    requires 0 <= q < job.lda * job.lda
    ensures Beyond(job, s, Put(s, q, v))
  {
  }

  lemma NothingComputed(job: Job, c: seq<int>, t: nat, core: Core)
    requires core.Transpose? || core.TransposeSync?
    ensures COk(job, c, t, core)
  {
  }

  /** Entering the barrier after a column of BB, or after four cells of C. */
  lemma EnterSync(job: Job, s0: State, s: State, t: nat)
    requires Even(job) && Inv(job, s0, s) && t < job.ncores
    requires || (s.cores[t].Transpose? && s.cores[t].k < job.lda && End(job, t) <= s.cores[t].i)
             || (s.cores[t].Store? && 4 <= s.cores[t].m)
    ensures Inv(job, s0, Step(job, s, t))
  {
    Eights(job);
    hide Even;
    var s' := Step(job, s, t);
    CoreAt(job, s0, s, t);
    hide Inv;
    Barrier.StepInv(s.bar, t);
    assert Local(job, s, s', t) by { hide BbOk, COk, Barrier.Inv; }
    hide Start, End, View.At, Barrier.Inv, Dot;
    assert BbOk(job, s'.bb, t, s'.cores[t]);
    assert COk(job, s'.c, t, s'.cores[t]);
    Recombine(job, s0, s, s', t);
  }

  /** Going on from (i, j), once the groups before it have been stored. */
  lemma NextOk(job: Job, r0: nat, t: nat, i: nat, j: nat, th: Barrier.Thread)
    requires Even(job) && t < job.ncores && i % 4 == 0
    requires (job.lda == 0 && i == 0 && j == Start(job, t)) || (i < job.lda && Start(job, t) <= j <= End(job, t))
    requires th.pc.Outside? && th.calls == r0 + job.lda + i / 4 * Width(job) + (j - Start(job, t))
    ensures PositionOk(job, t, Next(job, t, i, j)) && InStep(job, r0, t, Next(job, t, i, j), th)
  {
    Ranges(job, t);
    Eights(job);
    MulDistributes(i / 4, 1, Width(job));
    hide Even, Start, End, Width;
    assert (i + 4) / 4 == i / 4 + 1;
    if 0 < job.lda <= i + 4 {
      assert i / 4 + 1 == job.lda / 4;
    }
  }

  /** The loop control between the groups keeps track of what has been stored. */
  lemma NextComputed(job: Job, t: nat, i0: nat, j0: nat, i: int, j: int)
    requires Even(job) && t < job.ncores && GroupOk(job, t, i0, j0)
    requires 0 <= i < job.lda && Start(job, t) <= j < End(job, t) && Computed(Next(job, t, i0, j0 + 1), i, j)
    ensures Computed(MultiplySync(i0, j0), i, j)
  {
  }

  /** The transposition is over, and the loops over i and j begin. */
  lemma StartMultiply(job: Job, s0: State, s: State, t: nat)
    requires Even(job) && Inv(job, s0, s) && t < job.ncores && s.cores[t].Transpose? && job.lda <= s.cores[t].k
    ensures Inv(job, s0, Step(job, s, t))
  {
    var s' := Step(job, s, t);
    var core := Next(job, t, 0, Start(job, t));
    CoreAt(job, s0, s, t);
    hide Inv;
    PrivateLocal(job, s, t, core);
    Ranges(job, t);
    NextOk(job, s0.bar.rounds, t, 0, Start(job, t), s.bar.threads[t]);
    hide View.At, Barrier.Inv, Dot, Local, InStep, PositionOk;
    assert COk(job, s'.c, t, s'.cores[t]);
    assert BbOk(job, s'.bb, t, s'.cores[t]);
    Recombine(job, s0, s, s', t);
  }

  lemma InBarrierLocal(job: Job, s: State, t: nat, after: Core)
    requires t < |s.cores| == |s.bar.threads|
    ensures Local(job, s, InBarrier(s, t, after), t)
  {
    hide BbOk, COk;
  }

  lemma TransposeSyncCore(job: Job, r0: nat, s: State, t: nat)
    requires Even(job) && t < job.ncores == |s.cores| == |s.bar.threads| && s.cores[t].TransposeSync?
    requires CoreOk(job, r0, s, t)
    ensures CoreOk(job, r0, Step(job, s, t), t)
  {
    Ranges(job, t);
    hide Start, End, Width, Even, View.At, Dot;
    NothingComputed(job, s.c, t, Step(job, s, t).cores[t]);
  }

  lemma TransposeSyncOk(job: Job, s0: State, s: State, t: nat)
    requires Even(job) && Inv(job, s0, s) && t < job.ncores && s.cores[t].TransposeSync?
    ensures Inv(job, s0, Step(job, s, t))
  {
    CoreAt(job, s0, s, t);
    BarrierOk(job, s0, s);
    hide Inv, CoreOk, Local, Even, Barrier.Inv;
    Barrier.StepInv(s.bar, t);
    InBarrierLocal(job, s, t, Transpose(s.cores[t].k + 1, Start(job, t)));
    TransposeSyncCore(job, s0.bar.rounds, s, t);
    Recombine(job, s0, s, Step(job, s, t), t);
  }

  lemma NextProgress(job: Job, bb: seq<int>, c: seq<int>, t: nat, i: nat, j: nat)
    requires Even(job) && t < job.ncores && GroupOk(job, t, i, j)
    requires BbOk(job, bb, t, MultiplySync(i, j)) && COk(job, c, t, MultiplySync(i, j))
    ensures BbOk(job, bb, t, Next(job, t, i, j + 1)) && COk(job, c, t, Next(job, t, i, j + 1))
  {
    hide View.At, Dot;
    forall i', j' | 0 <= i' < job.lda && Start(job, t) <= j' < End(job, t) && Computed(Next(job, t, i, j + 1), i', j')
      ensures View(c, 0, job.lda).At(j', i') == Dot(job.a, job.b, j', i', 0, job.lda)
    {
      NextComputed(job, t, i, j, i', j');
    }
  }

  lemma MultiplySyncCore(job: Job, r0: nat, s: State, t: nat)
    requires Even(job) && t < job.ncores == |s.cores| == |s.bar.threads| && s.cores[t].MultiplySync?
    requires CoreOk(job, r0, s, t)
    ensures CoreOk(job, r0, Step(job, s, t), t)
  {
    Ranges(job, t);
    hide BbOk, COk, Next, Start, End, Width, Even;
    var i, j := s.cores[t].i, s.cores[t].j;
    NextProgress(job, s.bb, s.c, t, i, j);
    if Barrier.Step(s.bar, t).threads[t].pc.Outside? {
      NextOk(job, r0, t, i, j + 1, Barrier.Step(s.bar, t).threads[t]);
    }
  }

  lemma MultiplySyncOk(job: Job, s0: State, s: State, t: nat)
    requires Even(job) && Inv(job, s0, s) && t < job.ncores && s.cores[t].MultiplySync?
    ensures Inv(job, s0, Step(job, s, t))
  {
    CoreAt(job, s0, s, t);
    BarrierOk(job, s0, s);
    hide Inv, CoreOk, Local, Even, Barrier.Inv;
    Barrier.StepInv(s.bar, t);
    InBarrierLocal(job, s, t, Next(job, t, s.cores[t].i, s.cores[t].j + 1));
    MultiplySyncCore(job, s0.bar.rounds, s, t);
    Recombine(job, s0, s, Step(job, s, t), t);
  }

  /** One iteration of the innermost loop advances all four sums by eight terms. */
  lemma EightMore(job: Job, bb: seq<int>, i: nat, j: nat, k: nat, acc: Four)
    requires IsTranspose(job, bb) && i + 4 <= job.lda && k + 8 <= job.lda && Partial(job, i, j, k, acc)
    ensures Partial(job, i, j, k + 8, SumEight(job, bb, i, j, k, acc))
  {
    hide Eight, View.At, Dot;
    forall m | 0 <= m < 4
      ensures SumEight(job, bb, i, j, k, acc).Nth(m) == Dot(job.a, job.b, j, i + m, 0, k + 8)
    {
      assert acc.Nth(m) == Dot(job.a, job.b, j, i + m, 0, k);
      EightTerms(job, View(bb, 0, job.lda), j, i + m, k);
    }
  }

  /** Adding to the accumulators stores nothing. */
  lemma SumProgress(job: Job, bb: seq<int>, c: seq<int>, t: nat, i: nat, j: nat, k: nat, acc: Four, k': nat, acc': Four)
    requires BbOk(job, bb, t, Sum(i, j, k, acc)) && COk(job, c, t, Sum(i, j, k, acc))
    ensures BbOk(job, bb, t, Sum(i, j, k', acc')) && COk(job, c, t, Sum(i, j, k', acc'))
    ensures BbOk(job, bb, t, Store(i, j, 0, acc')) && COk(job, c, t, Store(i, j, 0, acc'))
    ensures Calls(job, t, Sum(i, j, k, acc)) == Calls(job, t, Sum(i, j, k', acc'))
        == Calls(job, t, Store(i, j, 0, acc'))
  {
    hide View.At, Dot, Start, End;
  }

  lemma NextMultiple(k: nat, n: nat, d: nat)
    requires d > 0 && k % d == 0 && n % d == 0 && k < n
    ensures k + d <= n && (k + d) % d == 0
  {
    var x, y := k / d, n / d;
    assert k == x * d && n == y * d;
    if y <= x {
      MulMonotone(y, x, d);
    }
    MulMonotone(x + 1, y, d);
    MulDistributes(x, 1, d);
    Coordinates(k + d, 0, d, x + 1, 0);
  }

  lemma SumBounds(job: Job, t: nat, i: nat, j: nat, k: nat)
    requires Even(job) && GroupOk(job, t, i, j) && k < job.lda && k % 8 == 0
    ensures i + 4 <= job.lda && k + 8 <= job.lda && (k + 8) % 8 == 0
  {
    Eights(job);
    assert job.lda % 4 == 0;
    NextMultiple(i, job.lda, 4);
    NextMultiple(k, job.lda, 8);
  }

  lemma SumEightCore(job: Job, r0: nat, s: State, t: nat)
    requires Even(job) && t < job.ncores == |s.cores| == |s.bar.threads| && s.cores[t].Sum? && s.cores[t].k < job.lda
    requires CoreOk(job, r0, s, t) && IsTranspose(job, s.bb)
    ensures CoreOk(job, r0, Step(job, s, t), t)
  {
    hide View.At, SumEight, Partial, IsTranspose, Start, End, Width, BbOk, COk, Calls;
    var core := s.cores[t];
    var acc' := SumEight(job, s.bb, core.i, core.j, core.k, core.acc);
    SumBounds(job, t, core.i, core.j, core.k);
    EightMore(job, s.bb, core.i, core.j, core.k, core.acc);
    SumProgress(job, s.bb, s.c, t, core.i, core.j, core.k, core.acc, core.k + 8, acc');
  }

  /** Eight more terms of each of the four sums. */
  lemma SumEightOk(job: Job, s0: State, s: State, t: nat)
    requires Even(job) && Inv(job, s0, s) && t < job.ncores && s.cores[t].Sum? && s.cores[t].k < job.lda
    ensures Inv(job, s0, Step(job, s, t))
  {
    CoreAt(job, s0, s, t);
    hide Inv, CoreOk, Local, Even;
    TransposeSeen(job, s0, s, t);
    SumEightCore(job, s0.bar.rounds, s, t);
    PrivateLocal(job, s, t, Step(job, s, t).cores[t]);
    BarrierOk(job, s0, s);
    Recombine(job, s0, s, Step(job, s, t), t);
  }

  lemma BarrierOk(job: Job, s0: State, s: State)
    requires Inv(job, s0, s)
    ensures Barrier.Inv(s.bar)
  {
  }

  lemma EightTerms(job: Job, bb: View, j: int, i: int, k: nat)
    requires forall x :: k <= x < k + 8 ==> bb.At(i, x) == job.b.At(x, i)
    ensures Eight(job, bb, j, i, k, Dot(job.a, job.b, j, i, 0, k)) == Dot(job.a, job.b, j, i, 0, k + 8)
  {
    hide View.At, Dot;
    DotStep(job.a, job.b, j, i, 0, k);
    DotStep(job.a, job.b, j, i, 0, k + 1);
    DotStep(job.a, job.b, j, i, 0, k + 2);
    DotStep(job.a, job.b, j, i, 0, k + 3);
    DotStep(job.a, job.b, j, i, 0, k + 4);
    DotStep(job.a, job.b, j, i, 0, k + 5);
    DotStep(job.a, job.b, j, i, 0, k + 6);
    DotStep(job.a, job.b, j, i, 0, k + 7);
  }

  lemma SumDoneOk(job: Job, s0: State, s: State, t: nat)
    requires Even(job) && Inv(job, s0, s) && t < job.ncores && s.cores[t].Sum? && job.lda <= s.cores[t].k
    ensures Inv(job, s0, Step(job, s, t))
  {
    CoreAt(job, s0, s, t);
    var s' := Step(job, s, t);
    PrivateLocal(job, s, t, s'.cores[t]);
    var core := s.cores[t];
    hide Inv, Even, Barrier.Inv, Local, Partial, Start, End, Width, BbOk, COk, Calls;
    SumProgress(job, s.bb, s.c, t, core.i, core.j, core.k, core.acc, core.k, core.acc);
    Recombine(job, s0, s, s', t);
  }

  lemma CStored(job: Job, c: seq<int>, t: nat, i: nat, j: nat, m: nat, acc: Four)
    requires Even(job) && t < job.ncores && GroupOk(job, t, i, j) && m < 4 && job.lda * job.lda <= |c|
    requires COk(job, c, t, Store(i, j, m, acc)) && acc.Nth(m) == Dot(job.a, job.b, j, i + m, 0, job.lda)
    ensures i + m < job.lda && j < job.lda
    ensures COk(job, Put(c, i + m + j * job.lda, acc.Nth(m)), t, Store(i, j, m + 1, acc))
    ensures Beyond(job, c, Put(c, i + m + j * job.lda, acc.Nth(m)))
  {
    Ranges(job, t);
    var v := acc.Nth(m);
    assert i + m < job.lda;
    var c' := Put(c, j * job.lda + (i + m), v);
    assert c' == Put(c, i + m + j * job.lda, v);
    hide Put, Start, End, Width, Dot, Four.Nth;
    CPut(job, c, j, i + m, v, t, Store(i, j, m, acc));
    PutCell(c, job.lda, j, i + m, v, j, i + m);
    PutBeyond(job, c, j * job.lda + (i + m), v);
    hide View.At;
  }

  /** One of the four stores into C. */
  lemma StoreOk(job: Job, s0: State, s: State, t: nat)
    requires Even(job) && Inv(job, s0, s) && t < job.ncores && s.cores[t].Store? && s.cores[t].m < 4
    requires job.lda * job.lda <= |s.c|
    ensures Inv(job, s0, Step(job, s, t))
  {
    Eights(job);
    hide Even;
    var s' := Step(job, s, t);
    var i, j, m, acc := s.cores[t].i, s.cores[t].j, s.cores[t].m, s.cores[t].acc;
    CoreAt(job, s0, s, t);
    hide Inv;
    hide Start, End, Width, View.At, Barrier.Inv, Put, Dot, COk;
    CStored(job, s.c, t, i, j, m, acc);
    forall u: nat | u < |s.cores| && COk(job, s.c, u, s.cores[u])
      ensures COk(job, s'.c, u, s.cores[u])
    {
      CPut(job, s.c, j, i + m, acc.Nth(m), u, s.cores[u]);
    }
    assert BbOk(job, s'.bb, t, s'.cores[t]);
    Recombine(job, s0, s, s', t);
  }

  /** Whatever core moves next, the invariant stays. */
  lemma StepOk(job: Job, s0: State, s: State, t: nat)
    requires Called(job, s0) && Inv(job, s0, s)
    ensures Inv(job, s0, Step(job, s, t))
  {
    if t < |s.cores| {
      match s.cores[t]
      case Transpose(k, i) =>
        if job.lda <= k { StartMultiply(job, s0, s, t); }
        else if i < End(job, t) { TransposeStore(job, s0, s, t); }
        else { EnterSync(job, s0, s, t); }
      case TransposeSync(k) => TransposeSyncOk(job, s0, s, t);
      case Sum(i, j, k, acc) =>
        if k < job.lda { SumEightOk(job, s0, s, t); } else { SumDoneOk(job, s0, s, t); }
      case Store(i, j, m, acc) =>
        if m < 4 { StoreOk(job, s0, s, t); } else { EnterSync(job, s0, s, t); }
      case MultiplySync(i, j) => MultiplySyncOk(job, s0, s, t);
      case Done =>
    }
  }

  // ---------- every run ----------

  function Run(job: Job, s: State, schedule: seq<nat>): (s': State)
    ensures |s'.cores| == |s.cores| && |s'.bar.threads| == |s.bar.threads|
  {
    if schedule == [] then s
    else Step(job, Run(job, s, schedule[..|schedule| - 1]), schedule[|schedule| - 1])
  }

  lemma {:induction false} RunOk(job: Job, s0: State, schedule: seq<nat>)
    requires Called(job, s0)
    ensures Inv(job, s0, Run(job, s0, schedule))
  {
    hide Inv;
    if schedule == [] {
      CalledInv(job, s0);
    } else {
      RunOk(job, s0, schedule[..|schedule| - 1]);
      StepOk(job, s0, Run(job, s0, schedule[..|schedule| - 1]), schedule[|schedule| - 1]);
    }
  }

  predicate AllDone(s: State) { forall t :: 0 <= t < |s.cores| ==> s.cores[t].Done? }

  /** The cells of `after` are the product A*B, and beyond the matrix those of `before`. */
  ghost predicate IsProduct(job: Job, before: seq<int>, after: seq<int>) {
    && (forall i, j :: 0 <= i < job.lda && 0 <= j < job.lda ==>
          View(after, 0, job.lda).At(j, i) == Dot(job.a, job.b, j, i, 0, job.lda))
    && Beyond(job, before, after)
  }

  lemma DoneProduct(job: Job, s0: State, s: State)
    requires Called(job, s0) && Inv(job, s0, s) && AllDone(s)
    ensures IsProduct(job, s0.c, s.c)
  {
    forall i, j | 0 <= i < job.lda && 0 <= j < job.lda
      ensures View(s.c, 0, job.lda).At(j, i) == Dot(job.a, job.b, j, i, 0, job.lda)
    {
      var t := Owner(job, j);
      CoreAt(job, s0, s, t);
      hide View.At, Dot, Start, End;
      assert COk(job, s.c, t, Done);
      assert Computed(Done, i, j);
    }
  }

  /** In every interleaving: whenever a core is past the transposition all of BB is B transposed,
      and when all cores have returned C is A*B, whatever BB and C held before. */
  lemma EveryRun(job: Job, s0: State, schedule: seq<nat>)
    requires Called(job, s0)
    ensures var s := Run(job, s0, schedule);
            && |s.cores| == job.ncores
            && (forall t: nat :: t < job.ncores && Multiplying(s.cores[t]) ==> IsTranspose(job, s.bb))
            && (AllDone(s) ==> IsProduct(job, s0.c, s.c))
  {
    var s := Run(job, s0, schedule);
    RunOk(job, s0, schedule);
    assert |s.cores| == job.ncores;
    hide IsProduct, IsTranspose;
    forall t: nat | t < job.ncores && Multiplying(s.cores[t])
      ensures IsTranspose(job, s.bb)
    {
      TransposeSeen(job, s0, s, t);
    }
    if AllDone(s) {
      DoneProduct(job, s0, s);
    }
  }

  /** Two cores that have both returned have made the same number of barrier calls, the number of
      rounds the barrier has completed. */
  lemma SameBarrierCalls(job: Job, s0: State, schedule: seq<nat>, t: nat)
    requires Called(job, s0) && t < job.ncores && Run(job, s0, schedule).cores[t].Done?
    ensures var s := Run(job, s0, schedule);
            && |s.bar.threads| == job.ncores
            && s.bar.threads[t].calls == s.bar.rounds == s0.bar.rounds + job.lda + job.lda / 4 * Width(job)
  {
    var s := Run(job, s0, schedule);
    RunOk(job, s0, schedule);
    CoreAt(job, s0, s, t);
    assert Barrier.ThreadOk(s.bar.threads[t], s.bar.rounds);
  }

  // ---------- no deadlock, and every fair run ends ----------

  function TotalCalls(job: Job): nat { job.lda + job.lda / 4 * Width(job) }

  /** No position is past the last barrier call. */
  lemma CallsBound(job: Job, t: nat, core: Core)
    requires Even(job) && t < job.ncores && PositionOk(job, t, core)
    ensures Calls(job, t, core) <= TotalCalls(job)
  {
    Ranges(job, t);
    Eights(job);
    MulMonotone(0, job.lda / 4, Width(job));
    if core.Sum? || core.Store? || core.MultiplySync? {
      assert core.i / 4 + 1 <= job.lda / 4;
      hide Even, Start, End, Width;
      MulMonotone(core.i / 4 + 1, job.lda / 4, Width(job));
      MulDistributes(core.i / 4, 1, Width(job));
    }
  }

  /** A core outside the barrier that has not returned can always go on. */
  lemma OutsideMoves(job: Job, s: State, t: nat)
    requires t < |s.cores| == |s.bar.threads| && !InSync(s.cores[t]) && !s.cores[t].Done?
    ensures Step(job, s, t) != s
  {
    assert Step(job, s, t).cores[t] != s.cores[t];
  }

  /** A core inside the barrier goes on unless its thread looks at `sense` in vain. */
  lemma InsideMoves(job: Job, s: State, t: nat)
    requires t < |s.cores| == |s.bar.threads| && InSync(s.cores[t]) && Barrier.Step(s.bar, t) != s.bar
    ensures Step(job, s, t) != s
  {
    assert Step(job, s, t).bar == Barrier.Step(s.bar, t);
  }

  lemma FutileCalls(b: Barrier.State, t: nat)
    requires Barrier.Inv(b) && t < |b.threads| && !b.threads[t].pc.Outside? && Barrier.Step(b, t) == b
    ensures b.threads[t].calls == b.rounds + 1
  {
    assert Barrier.ThreadOk(b.threads[t], b.rounds);
    assert Barrier.Step(b, t).threads[t] == b.threads[t];
  }

  /** No deadlock: until all cores have returned, some core's next step changes the state. */
  lemma SomeoneMoves(job: Job, s0: State, s: State) returns (t: nat)
    requires Called(job, s0) && Inv(job, s0, s) && !AllDone(s)
    ensures t < job.ncores && Step(job, s, t) != s
  {
    var r0 := s0.bar.rounds;
    t :| t < |s.cores| && !s.cores[t].Done?;
    CoreAt(job, s0, s, t);
    BarrierOk(job, s0, s);
    if !InSync(s.cores[t]) {
      OutsideMoves(job, s, t);
    } else if Barrier.Step(s.bar, t) != s.bar {
      InsideMoves(job, s, t);
    } else {
      FutileCalls(s.bar, t);
      CallsBound(job, t, s.cores[t]);
      t := Barrier.SomeoneMoves(s.bar);
      CoreAt(job, s0, s, t);
      hide Step, Barrier.Step;
      if InSync(s.cores[t]) {
        InsideMoves(job, s, t);
      } else {
        assert Barrier.ThreadOk(s.bar.threads[t], s.bar.rounds);
        OutsideMoves(job, s, t);
      }
    }
  }

  function BarrierRank(pc: Barrier.Pc): nat {
    match pc
    case Adding => 4
    case Resetting => 3
    case Releasing => 2
    case Spinning => 1
    case Outside => 0
  }

  /** An upper bound on the steps a core takes before its next barrier call. */
  function LocalRank(job: Job, t: nat, core: Core, pc: Barrier.Pc): int {
    match core
    case Transpose(k, i) => End(job, t) - i + job.lda + 10
    case TransposeSync(k) => BarrierRank(pc) + Width(job) + job.lda + 10
    case Sum(i, j, k, acc) => job.lda - k + 7
    case Store(i, j, m, acc) => 6 - m
    case MultiplySync(i, j) => BarrierRank(pc) + job.lda + 8
    case Done => 0
  }

  function Times(x: nat, y: nat): nat {
    MulMonotone(0, x, y);
    x * y
  }

  /** An upper bound on the steps a core still takes. */
  function Rank(job: Job, r0: nat, t: nat, core: Core, th: Barrier.Thread): nat {
    var calls, local := r0 + TotalCalls(job) - th.calls, LocalRank(job, t, core, th.pc);
    Times(if calls < 0 then 0 else calls, Width(job) + job.lda + 20) + if local < 0 then 0 else local
  }

  lemma LocalRankBounds(job: Job, t: nat, core: Core, pc: Barrier.Pc)
    requires Even(job) && t < job.ncores && PositionOk(job, t, core)
    ensures 0 <= LocalRank(job, t, core, pc) < Width(job) + job.lda + 20
  {
    Ranges(job, t);
    hide Even, Start, End, Width;
  }

  lemma LocalDecreases(job: Job, s: State, t: nat)
    requires Even(job) && t < job.ncores == |s.cores| == |s.bar.threads|
    requires PositionOk(job, t, s.cores[t]) && (InSync(s.cores[t]) <==> !s.bar.threads[t].pc.Outside?)
    requires Step(job, s, t) != s
    ensures var s' := Step(job, s, t);
            || s'.bar.threads[t].calls == s.bar.threads[t].calls + 1
            || (s'.bar.threads[t].calls == s.bar.threads[t].calls
                && LocalRank(job, t, s'.cores[t], s'.bar.threads[t].pc)
                   < LocalRank(job, t, s.cores[t], s.bar.threads[t].pc))
  {
    Ranges(job, t);
    hide Even, Start, End, Width;
    match s.cores[t]
    case TransposeSync(k) =>
      BarrierDecreases(s.bar, t);
    case MultiplySync(i, j) =>
      BarrierDecreases(s.bar, t);
    case Transpose(k, i) =>
    case Sum(i, j, k, acc) =>
    case Store(i, j, m, acc) =>
    case Done =>
  }

  lemma BarrierDecreases(b: Barrier.State, t: nat)
    requires t < |b.threads| && !b.threads[t].pc.Outside?
    ensures Barrier.Step(b, t) == b || BarrierRank(Barrier.Step(b, t).threads[t].pc) < BarrierRank(b.threads[t].pc)
    ensures Barrier.Step(b, t).threads[t].calls == b.threads[t].calls
  {
  }

  lemma RankArithmetic(left: nat, left': nat, size: nat, local: nat, local': nat)
    requires local < size && local' < size
    requires (left' == left && local' < local) || left' + 1 == left
    ensures Times(left', size) + local' < Times(left, size) + local
  {
    MulDistributes(left', 1, size);
  }

  /** Every step that changes the state brings its core nearer its return. */
  lemma RankDecreases(job: Job, s0: State, s: State, t: nat)
    requires Called(job, s0) && Inv(job, s0, s) && t < job.ncores && Step(job, s, t) != s
    ensures var s' := Step(job, s, t); var r0 := s0.bar.rounds;
            && |s.cores| == |s.bar.threads| == job.ncores
            && Rank(job, r0, t, s'.cores[t], s'.bar.threads[t]) < Rank(job, r0, t, s.cores[t], s.bar.threads[t])
  {
    hide Inv, BbOk, COk, Calls, TotalCalls, PositionOk, Step, LocalRank, Even, Width, Times;
    var s', r0 := Step(job, s, t), s0.bar.rounds;
    StepOk(job, s0, s, t);
    CoreAt(job, s0, s, t);
    CoreAt(job, s0, s', t);
    CallsBound(job, t, s.cores[t]);
    CallsBound(job, t, s'.cores[t]);
    LocalDecreases(job, s, t);
    LocalRankBounds(job, t, s.cores[t], s.bar.threads[t].pc);
    LocalRankBounds(job, t, s'.cores[t], s'.bar.threads[t].pc);
    hide Called;
    RankArithmetic(r0 + TotalCalls(job) - s.bar.threads[t].calls, r0 + TotalCalls(job) - s'.bar.threads[t].calls,
                   Width(job) + job.lda + 20, LocalRank(job, t, s.cores[t], s.bar.threads[t].pc),
                   LocalRank(job, t, s'.cores[t], s'.bar.threads[t].pc));
  }

  function SumRank(job: Job, r0: nat, s: State, n: nat): nat
    requires n <= |s.cores| == |s.bar.threads|
  {
    if n == 0 then 0 else SumRank(job, r0, s, n - 1) + Rank(job, r0, n - 1, s.cores[n - 1], s.bar.threads[n - 1])
  }

  lemma {:induction false} SumRankUpdate(job: Job, r0: nat, s: State, s': State, t: nat, n: nat)
    requires n <= |s.cores| == |s.bar.threads| == |s'.cores| == |s'.bar.threads| && t < |s.cores|
    requires forall u :: 0 <= u < |s.cores| && u != t ==>
               s'.cores[u] == s.cores[u] && s'.bar.threads[u] == s.bar.threads[u]
    ensures SumRank(job, r0, s', n) == SumRank(job, r0, s, n)
          + if t < n then
              Rank(job, r0, t, s'.cores[t], s'.bar.threads[t]) - Rank(job, r0, t, s.cores[t], s.bar.threads[t])
            else 0
  {
    hide Rank;
    if n > 0 {
      SumRankUpdate(job, r0, s, s', t, n - 1);
    }
  }

  /** State i of the infinite run in which core f(j) takes step j. */
  function StateAt(job: Job, s: State, f: nat -> nat, i: nat): (r: State)
    ensures |r.cores| == |s.cores| && |r.bar.threads| == |s.bar.threads|
  {
    if i == 0 then s else Step(job, StateAt(job, s, f, i - 1), f(i - 1))
  }

  lemma {:induction false} StateAtOk(job: Job, s0: State, f: nat -> nat, i: nat)
    requires Called(job, s0)
    ensures Inv(job, s0, StateAt(job, s0, f, i))
  {
    hide Inv;
    if i == 0 {
      CalledInv(job, s0);
    } else {
      StateAtOk(job, s0, f, i - 1);
      StepOk(job, s0, StateAt(job, s0, f, i - 1), f(i - 1));
    }
  }

  /** If core t would change state i and has its turn at step j, the state changes by then. */
  lemma {:induction false} ChangeBy(job: Job, s: State, f: nat -> nat, i: nat, j: nat) returns (k: nat)
    requires i <= j && Step(job, StateAt(job, s, f, i), f(j)) != StateAt(job, s, f, i)
    ensures StateAt(job, s, f, k) == StateAt(job, s, f, i) && StateAt(job, s, f, k + 1) != StateAt(job, s, f, k)
      && i <= k <= j
    decreases j - i
  {
    hide Step;
    if StateAt(job, s, f, i + 1) != StateAt(job, s, f, i) {
      k := i;
    } else {
      k := ChangeBy(job, s, f, i + 1, j);
    }
  }

  lemma StepElsewhere(job: Job, s: State, t: nat)
    requires |s.cores| == |s.bar.threads|
    ensures forall u :: 0 <= u < |s.cores| && u != t ==>
              Step(job, s, t).cores[u] == s.cores[u] && Step(job, s, t).bar.threads[u] == s.bar.threads[u]
    ensures Step(job, s, t) != s ==> t < |s.cores|
  {
  }

  lemma SumRankDecreases(job: Job, s0: State, s: State, t: nat)
    requires Called(job, s0) && Inv(job, s0, s) && |s.cores| == |s.bar.threads| == |s0.cores| == job.ncores
      && Step(job, s, t) != s
    ensures SumRank(job, s0.bar.rounds, Step(job, s, t), |s0.cores|) < SumRank(job, s0.bar.rounds, s, |s0.cores|)
  {
    hide Inv, Step, Rank, Called, SumRank;
    StepElsewhere(job, s, t);
    RankDecreases(job, s0, s, t);
    SumRankUpdate(job, s0.bar.rounds, s, Step(job, s, t), t, |s0.cores|);
  }

  /** Under a fair schedule some later state has fewer steps left. */
  lemma RankFalls(job: Job, s0: State, f: nat -> nat, i: nat) returns (k: nat)
    requires Called(job, s0) && Barrier.Fair(f, job.ncores) && !AllDone(StateAt(job, s0, f, i))
    ensures i < k
    ensures SumRank(job, s0.bar.rounds, StateAt(job, s0, f, k), |s0.cores|)
            < SumRank(job, s0.bar.rounds, StateAt(job, s0, f, i), |s0.cores|)
  {
    hide Inv, Step, SumRank, AllDone;
    StateAtOk(job, s0, f, i);
    var now := StateAt(job, s0, f, i);
    var t := SomeoneMoves(job, s0, now);
    assert Barrier.TurnAfter(f, t, i);
    var turn: nat :| i <= turn && f(turn) == t;
    var last := ChangeBy(job, s0, f, i, turn);
    k := last + 1;
    SumRankDecreases(job, s0, now, f(last));
  }

  lemma {:induction false} EventuallyDone(job: Job, s0: State, f: nat -> nat, i: nat) returns (j: nat)
    requires Called(job, s0) && Barrier.Fair(f, job.ncores)
    ensures i <= j && AllDone(StateAt(job, s0, f, j))
    decreases SumRank(job, s0.bar.rounds, StateAt(job, s0, f, i), |s0.cores|)
  {
    hide Called, StateAt, SumRank, Barrier.Fair;
    if AllDone(StateAt(job, s0, f, i)) {
      j := i;
    } else {
      var k := RankFalls(job, s0, f, i);
      j := EventuallyDone(job, s0, f, k);
    }
  }

  /** Total correctness: however the cores are scheduled, as long as none is starved, all of them
      return, and then C is A*B. */
  lemma EveryFairRun(job: Job, s0: State, f: nat -> nat) returns (j: nat)
    requires Called(job, s0) && Barrier.Fair(f, job.ncores)
    ensures AllDone(StateAt(job, s0, f, j)) && IsProduct(job, s0.c, StateAt(job, s0, f, j).c)
  {
    j := EventuallyDone(job, s0, f, 0);
    StateAtOk(job, s0, f, j);
    DoneProduct(job, s0, StateAt(job, s0, f, j));
  }

  /** The cells that the next step of core t reads or stores are inside BB and C. */
  ghost predicate AccessOk(job: Job, s: State, t: nat)
    requires t < |s.cores|
  {
    match s.cores[t]
    case Transpose(k, i) => k < job.lda && i < End(job, t) ==> 0 <= i * job.lda + k < |s.bb|
    case Sum(i, j, k, acc) => k < job.lda ==>
      forall r, x :: i <= r < i + 4 && k <= x < k + 8 ==> View(s.bb, 0, job.lda).Has(r, x)
    case Store(i, j, m, acc) => m < 4 ==> 0 <= i + m + j * job.lda < |s.c|
    case _ => true
  }

  lemma PositionAccess(job: Job, s: State, t: nat)
    requires Even(job) && t < job.ncores == |s.cores| && PositionOk(job, t, s.cores[t])
    requires job.lda * job.lda <= |s.bb| && job.lda * job.lda <= |s.c|
    ensures AccessOk(job, s, t)
  {
    Ranges(job, t);
    match s.cores[t]
    case Transpose(k, i) =>
      if k < job.lda && i < End(job, t) {
        PutCell(s.bb, job.lda, i, k, 0, i, k);
      }
    case Store(i, j, m, acc) =>
      if m < 4 {
        SumBounds(job, t, i, j, 0);
        PutCell(s.c, job.lda, j, i + m, 0, j, i + m);
      }
    case Sum(i, j, k, acc) =>
      if k < job.lda {
        SumBounds(job, t, i, j, k);
        hide Start, End, Width, Even;
        forall r, x | i <= r < i + 4 && k <= x < k + 8
          ensures View(s.bb, 0, job.lda).Has(r, x)
        {
          PutCell(s.bb, job.lda, r, x, 0, r, x);
        }
      }
    case _ =>
  }

  /** No access leaves its array, in any state of any run. */
  lemma AccessesInRange(job: Job, s0: State, schedule: seq<nat>, t: nat)
    requires Called(job, s0) && t < job.ncores
    ensures |Run(job, s0, schedule).cores| == job.ncores && AccessOk(job, Run(job, s0, schedule), t)
  {
    var s := Run(job, s0, schedule);
    RunOk(job, s0, schedule);
    CoreAt(job, s0, s, t);
    hide AccessOk, PositionOk;
    PositionAccess(job, s, t);
  }
}
