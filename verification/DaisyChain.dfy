/** riscv-tests/debug/rbb_daisychain.py: several remote_bitbang TAPs presented as one scan chain.

    Chain.execute hands each TAP a whole batch of commands, one TAP after the other.  A TAP is any
    deterministic machine whose 'R' command returns the byte at its TDO and changes nothing. */
module DaisyChain {

  type Byte = bv8

  const READ: Byte := 0x52   // 'R'
  const ONE: Byte := 0x31    // '1'

  /** A scan command, '0' to '7': its three low bits are TCK, TMS and TDI. */
  predicate IsScan(c: Byte) { 0x30 <= c <= 0x37 }

  /** The command with its TDI bit taken from a TDO byte. */
  function WithTdi(c: Byte, v: Byte): Byte {
    (c & 0xfe) | (if v == ONE then 1 else 0)
  }

  /** A TAP: its state, the effect of a command other than 'R', and the byte 'R' returns. */
  datatype Tap<!S> = Tap(state: S, next: (S, Byte) -> S, tdo: S -> Byte) {
    function Do(c: Byte): Tap<S> { this.(state := next(state, c)) }
    function Read(): Byte { tdo(state) }
  }

  /** Tap.execute: the TAP takes every command in order and returns a byte for each 'R'. */
  function TapRun<S>(tap: Tap<S>, commands: seq<Byte>): (r: (Tap<S>, seq<Byte>))
    ensures |r.1| == Count(commands, READ)
    decreases |commands|
  {
    if commands == [] then (tap, [])
    else if commands[0] == READ then
      var (tap', out) := TapRun(tap, commands[1..]);
      (tap', [tap.Read()] + out)
    else TapRun(tap.Do(commands[0]), commands[1..])
  }

  function Count(commands: seq<Byte>, c: Byte): nat {
    if commands == [] then 0 else (if commands[0] == c then 1 else 0) + Count(commands[1..], c)
  }

  function Scans(commands: seq<Byte>): nat {
    if commands == [] then 0 else (if IsScan(commands[0]) then 1 else 0) + Scans(commands[1..])
  }

  // ---------- the reference: one chain, clocked in lockstep ----------

  /** One command other than 'R' reaches every TAP.  Of a scan command the first TAP sees the TDI it
      was sent with, and every other TAP the TDO of the TAP before it after the same command. */
  function Clock<S>(taps: seq<Tap<S>>, c: Byte): (taps': seq<Tap<S>>)
    ensures |taps'| == |taps|
  {
    if taps == [] then []
    else
      var first := taps[0].Do(c);
      [first] + Clock(taps[1..], if IsScan(c) then WithTdi(c, first.Read()) else c)
  }

  /** The commands take effect one at a time on the whole chain; 'R' reads the last TAP's TDO. */
  function Lockstep<S>(taps: seq<Tap<S>>, commands: seq<Byte>): (r: (seq<Tap<S>>, seq<Byte>))
    ensures |r.0| == |taps|
    ensures |r.1| == if taps == [] then 0 else Count(commands, READ)
    decreases |commands|
  {
    if commands == [] then (taps, [])
    else if commands[0] == READ then
      var (taps', out) := Lockstep(taps, commands[1..]);
      (taps', (if taps == [] then [] else [taps[|taps| - 1].Read()]) + out)
    else Lockstep(Clock(taps, commands[0]), commands[1..])
  }

  // ---------- what the TAPs of the chain are sent ----------

  /** The command that TAP i of a chain takes when c is sent: c itself at the first TAP and when c is no
      scan; otherwise c with bit 0 set exactly when the TAP before shows the byte '1'. */
  predicate Reaches<S>(taps: seq<Tap<S>>, c: Byte, i: nat, c': Byte)
    requires i < |taps|
  {
    && c' & 0xfe == c & 0xfe
    && (i == 0 || !(0x30 <= c <= 0x37) ==> c' == c)
    && (i > 0 && 0x30 <= c <= 0x37 ==> (c' & 1 == 1 <==> Clock(taps, c)[i - 1].Read() == 0x31))
  }

  /** Every TAP takes one command, and this is the one. */
  lemma {:induction false} ClockedTap<S>(taps: seq<Tap<S>>, c: Byte, i: nat) returns (c': Byte)
    requires i < |taps|
    ensures Reaches(taps, c, i, c') && Clock(taps, c)[i] == taps[i].Do(c')
    decreases i
  {
    if i == 0 {
      c' := c;
    } else {
      var first := taps[0].Do(c);
      var d := if IsScan(c) then WithTdi(c, first.Read()) else c;
      BitsOfTdi(c, first.Read());
      c' := ClockedTap(taps[1..], d, i - 1);
    }
  }

  lemma BitsOfTdi(c: Byte, v: Byte)
    ensures var d := if IsScan(c) then WithTdi(c, v) else c;
            && d & 0xfe == c & 0xfe && (0x30 <= d <= 0x37 <==> 0x30 <= c <= 0x37)
            && (0x30 <= c <= 0x37 ==> (d & 1 == 1 <==> v == 0x31))
            && (!(0x30 <= c <= 0x37) ==> d == c)
  {
  }

  /** Only the byte 'R' is answered, by the last TAP, and it changes nothing. */
  lemma OneCommand<S>(taps: seq<Tap<S>>, c: Byte)
    requires taps != []
    ensures Lockstep(taps, [c]) == if c == 0x52 then (taps, [taps[|taps| - 1].Read()]) else (Clock(taps, c), [])
  {
    LockstepCons(taps, c, []);
    assert [c] + [] == [c];
    assert [taps[|taps| - 1].Read()] + [] == [taps[|taps| - 1].Read()];
  }

  // ---------- a chain of one-bit registers is a shift register ----------

  /** A data register of one bit: it takes TDI when TCK rises and shows its bit at TDO when TCK falls. */
  datatype Cell = Cell(tck: bool, bit: bool, out: bool)

  function CellNext(s: Cell, c: Byte): Cell {
    if 0x30 <= c <= 0x37 then
      var high := c & 4 == 4;
      Cell(high, if high && !s.tck then c & 1 == 1 else s.bit, if !high && s.tck then s.bit else s.out)
    else s
  }

  function CellTdo(s: Cell): Byte { Ascii(s.out) }

  function Ascii(bit: bool): Byte { if bit then 0x31 else 0x30 }

  function Register(s: Cell): Tap<Cell> { Tap(s, CellNext, CellTdo) }

  /** The chain with TCK low that holds these bits, the first at its TDI end. */
  function Holding(bits: seq<bool>): (r: seq<Tap<Cell>>)
    ensures |r| == |bits|
  {
    seq(|bits|, i requires 0 <= i < |bits| => Register(Cell(false, bits[i], bits[i])))
  }

  /** The same chain after TCK has risen on the bits `taken`. */
  function Risen(taken: seq<bool>, bits: seq<bool>): (r: seq<Tap<Cell>>)
    requires |taken| == |bits|
    ensures |r| == |bits|
  {
    seq(|bits|, i requires 0 <= i < |bits| => Register(Cell(true, taken[i], bits[i])))
  }

  /** TCK rises and falls with TDI at this bit, and TDO is read: "4", "0" or "5", "1", then "R". */
  function Pulse(b: bool): seq<Byte> { if b then [0x35, 0x31, 0x52] else [0x34, 0x30, 0x52] }

  function Pulses(input: seq<bool>): seq<Byte> {
    if input == [] then [] else Pulse(input[0]) + Pulses(input[1..])
  }

  /** The bits moved on by one place. */
  function Shifted(bits: seq<bool>, b: bool): (r: seq<bool>)
    ensures |r| == |bits|
  {
    if bits == [] then [] else [b] + bits[..|bits| - 1]
  }

  lemma {:induction false} RisingEdge(bits: seq<bool>, b: bool)
    ensures Clock(Holding(bits), if b then 0x35 else 0x34) == Risen(Shifted(bits, b), bits)
    decreases |bits|
  {
    if bits != [] {
      var taps, c: Byte := Holding(bits), if b then 0x35 else 0x34;
      var first := taps[0].Do(c);
      assert first == Register(Cell(true, b, bits[0]));
      var d: Byte := if bits[0] then 0x35 else 0x34;
      assert IsScan(c) && WithTdi(c, Ascii(bits[0])) == d;
      assert taps[1..] == Holding(bits[1..]);
      RisingEdge(bits[1..], bits[0]);
      hide Holding, Register;
      RisenFirst(bits, b);
    }
  }

  lemma RisenFirst(bits: seq<bool>, b: bool)
    requires bits != []
    ensures [Register(Cell(true, b, bits[0]))]
        + Risen(Shifted(bits[1..], bits[0]), bits[1..]) == Risen(Shifted(bits, b), bits)
  {
    if |bits| > 1 {
      assert bits[..|bits| - 1] == [bits[0]] + bits[1..][..|bits| - 2];
    }
    assert Shifted(bits, b) == [b] + Shifted(bits[1..], bits[0]);
  }

  lemma {:induction false} FallingEdge(taken: seq<bool>, bits: seq<bool>, c: Byte)
    requires |taken| == |bits| && (c == 0x30 || c == 0x31)
    ensures Clock(Risen(taken, bits), c) == Holding(taken)
    decreases |bits|
  {
    if bits != [] {
      var taps := Risen(taken, bits);
      var first := taps[0].Do(c);
      assert first == Register(Cell(false, taken[0], taken[0]));
      var d := WithTdi(c, Ascii(taken[0]));
      assert IsScan(c) && d == Ascii(taken[0]);
      assert taps[1..] == Risen(taken[1..], bits[1..]);
      FallingEdge(taken[1..], bits[1..], d);
      assert [first] + Holding(taken[1..]) == Holding(taken);
    }
  }

  /** One pulse moves every bit to the next register and returns the bit that has come to the end. */
  lemma ShiftOne(bits: seq<bool>, b: bool, more: seq<Byte>)
    requires bits != []
    ensures Lockstep(Holding(bits), Pulse(b) + more) ==
            (Lockstep(Holding(Shifted(bits, b)), more).0,
             [Ascii(Shifted(bits, b)[|bits| - 1])] + Lockstep(Holding(Shifted(bits, b)), more).1)
  {
    var high: Byte, low: Byte := if b then 0x35 else 0x34, if b then 0x31 else 0x30;
    var taken := Shifted(bits, b);
    assert Pulse(b) + more == [high] + ([low] + ([0x52] + more));
    LockstepCons(Holding(bits), high, [low] + ([0x52] + more));
    RisingEdge(bits, b);
    LockstepCons(Risen(taken, bits), low, [0x52] + more);
    FallingEdge(taken, bits, low);
    LockstepCons(Holding(taken), 0x52, more);
    assert Holding(taken)[|bits| - 1].Read() == Ascii(taken[|bits| - 1]);
    hide Lockstep, Clock, Pulse, Shifted;
  }

  /** The bits in the registers after all of the input has been shifted in. */
  function ShiftedAll(bits: seq<bool>, input: seq<bool>): (r: seq<bool>)
    ensures |r| == |bits|
    decreases |input|
  {
    if input == [] then bits else ShiftedAll(Shifted(bits, input[0]), input[1..])
  }

  /** The bit that comes out at pulse k: first what was in the registers, from the end of the chain on,
      and then the input, as many pulses later as there are registers. */
  function Delayed(bits: seq<bool>, input: seq<bool>, k: nat): bool
    requires bits != [] && k < |input|
  {
    if k + 1 < |bits| then bits[|bits| - 2 - k] else input[k + 1 - |bits|]
  }

  predicate ComesOut(out: seq<Byte>, bits: seq<bool>, input: seq<bool>)
    requires bits != []
  {
    |out| == |input| && forall k :: 0 <= k < |input| ==> out[k] == Ascii(Delayed(bits, input, k))
  }

  lemma FirstComesOut(out: seq<Byte>, bits: seq<bool>, input: seq<bool>)
    requires bits != [] && input != [] && ComesOut(out, Shifted(bits, input[0]), input[1..])
    ensures ComesOut([Ascii(Shifted(bits, input[0])[|bits| - 1])] + out, bits, input)
  {
    hide Ascii;
    var next, all := Shifted(bits, input[0]), [Ascii(Shifted(bits, input[0])[|bits| - 1])] + out;
    forall k | 0 <= k < |input|
      ensures all[k] == Ascii(Delayed(bits, input, k))
    {
      if k > 0 {
        assert all[k] == out[k - 1] == Ascii(Delayed(next, input[1..], k - 1));
      }
    }
  }

  /** A chain of n one-bit registers is a shift register of n bits, whatever is shifted through it. */
  lemma {:induction false} ChainShifts(bits: seq<bool>, input: seq<bool>)
    requires bits != []
    ensures var (taps, out) := Lockstep(Holding(bits), Pulses(input));
            taps == Holding(ShiftedAll(bits, input)) && ComesOut(out, bits, input)
    decreases |input|
  {
    if input != [] {
      hide Lockstep, Pulse, Holding, Shifted, ComesOut, Ascii;
      var next := Shifted(bits, input[0]);
      ShiftOne(bits, input[0], Pulses(input[1..]));
      ChainShifts(next, input[1..]);
      FirstComesOut(Lockstep(Holding(next), Pulses(input[1..])).1, bits, input);
    }
  }

  /** And the registers end with the last bits of the input, the newest first, before what they held. */
  lemma {:induction false} ShiftedBits(bits: seq<bool>, input: seq<bool>, i: nat)
    requires i < |bits|
    ensures ShiftedAll(bits, input)[i] == if i < |input| then input[|input| - 1 - i] else bits[i - |input|]
    decreases |input|
  {
    if input != [] {
      ShiftedBits(Shifted(bits, input[0]), input[1..], i);
    }
  }

  // ---------- what execute sends to one TAP ----------

  /** The commands with the TDI of each scan replaced by the next of the values. */
  function Replaced(commands: seq<Byte>, values: seq<Byte>): (r: seq<Byte>)
    requires |values| == Scans(commands)
    ensures |r| == |commands| && Scans(r) == Scans(commands)
  {
    if commands == [] then []
    else if IsScan(commands[0]) then
      ScanStays(commands[0], values[0]);
      [WithTdi(commands[0], values[0])] + Replaced(commands[1..], values[1..])
    else [commands[0]] + Replaced(commands[1..], values)
  }

  lemma ScanStays(c: Byte, v: Byte)
    ensures IsScan(WithTdi(c, v)) <==> IsScan(c)
    ensures IsScan(c) ==> WithTdi(c, v) != READ
  {
  }

  lemma TdiReplaced(c: Byte, v: Byte, w: Byte)
    ensures WithTdi(WithTdi(c, v), w) == WithTdi(c, w)
  {
  }

  function ProbedOne(c: Byte): seq<Byte> {
    if IsScan(c) then [c, READ] else if c == READ then [] else [c]
  }

  /** What a TAP other than the last is sent: no 'R' of the caller's, and one after every scan. */
  function Probed(commands: seq<Byte>): seq<Byte> {
    if commands == [] then []
    else ProbedOne(commands[0]) + Probed(commands[1..])
  }

  lemma {:induction false} ProbedReads(commands: seq<Byte>)
    ensures Count(Probed(commands), READ) == Scans(commands)
  {
    if commands != [] {
      ProbedReads(commands[1..]);
      var rest, c := Probed(commands[1..]), commands[0];
      if IsScan(c) {
        assert ([c, READ] + rest)[1..] == [READ] + rest && ([READ] + rest)[1..] == rest;
      } else if c != READ {
        assert ([c] + rest)[1..] == rest;
      } else {
        assert Probed(commands) == rest;
      }
    }
  }

  // ---------- the batch: one TAP after the other ----------

  /** The TAPs take their batches in turn; the bytes read from one TAP become the TDI of the next.
      `commands` is what reaches the first of these TAPs. */
  function Batch<S>(taps: seq<Tap<S>>, commands: seq<Byte>): (seq<Tap<S>>, seq<Byte>)
    decreases |taps|
  {
    if taps == [] then ([], [])
    else if |taps| == 1 then
      var (tap', out) := TapRun(taps[0], commands);
      ([tap'], out)
    else
      var (tap', values) := TapRun(taps[0], Probed(commands));
      ProbedReads(commands);
      var (rest', out) := Batch(taps[1..], Replaced(commands, values));
      ([tap'] + rest', out)
  }

  lemma TapRunCons<S>(tap: Tap<S>, c: Byte, commands: seq<Byte>)
    ensures TapRun(tap, [c] + commands) ==
            if c == READ then (TapRun(tap, commands).0, [tap.Read()] + TapRun(tap, commands).1)
            else TapRun(tap.Do(c), commands)
  {
    assert ([c] + commands)[1..] == commands;
  }

  lemma LockstepCons<S>(taps: seq<Tap<S>>, c: Byte, commands: seq<Byte>)
    requires taps != []
    ensures Lockstep(taps, [c] + commands) ==
            if c == READ then (Lockstep(taps, commands).0, [taps[|taps| - 1].Read()] + Lockstep(taps, commands).1)
            else Lockstep(Clock(taps, c), commands)
  {
    assert ([c] + commands)[1..] == commands;
  }

  lemma ProbedCons(c: Byte, commands: seq<Byte>)
    ensures Probed([c] + commands) == ProbedOne(c) + Probed(commands)
    ensures Scans([c] + commands) == (if IsScan(c) then 1 else 0) + Scans(commands)
    ensures IsScan(c) ==> c != READ
  {
    assert ([c] + commands)[1..] == commands;
  }

  /** One command of a batch for a TAP that is not the last. */
  lemma ProbeStep<S>(tap: Tap<S>, c: Byte, commands: seq<Byte>)
    ensures var tap1 := if c == READ then tap else tap.Do(c);
            var (tap', values) := TapRun(tap1, Probed(commands));
            TapRun(tap, Probed([c] + commands)) == (tap', (if IsScan(c) then [tap1.Read()] else []) + values)
  {
    var rest := Probed(commands);
    ProbedCons(c, commands);
    hide TapRun, IsScan, Probed;
    if IsScan(c) {
      assert [c, READ] + rest == [c] + ([READ] + rest);
      TapRunCons(tap, c, [READ] + rest);
      TapRunCons(tap.Do(c), READ, rest);
    } else if c != READ {
      TapRunCons(tap, c, rest);
      assert [] + TapRun(tap.Do(c), rest).1 == TapRun(tap.Do(c), rest).1;
    } else {
      assert [] + rest == rest;
      assert [] + TapRun(tap, rest).1 == TapRun(tap, rest).1;
    }
  }

  lemma ReplacedCons(c: Byte, commands: seq<Byte>, values: seq<Byte>)
    requires |values| == Scans([c] + commands)
    ensures |values| == (if IsScan(c) then 1 else 0) + Scans(commands)
    ensures Replaced([c] + commands, values) ==
            if IsScan(c) then [WithTdi(c, values[0])] + Replaced(commands, values[1..])
            else [c] + Replaced(commands, values)
  {
    assert ([c] + commands)[1..] == commands;
  }

  /** The reference chain, with its first TAP run to the end before the others. */
  function FirstThenRest<S>(taps: seq<Tap<S>>, commands: seq<Byte>): (seq<Tap<S>>, seq<Byte>)
    requires |taps| > 1
  {
    var (tap', values) := TapRun(taps[0], Probed(commands));
    ProbedReads(commands);
    var (rest', out) := Lockstep(taps[1..], Replaced(commands, values));
    ([tap'] + rest', out)
  }

  lemma FirstThenRestStep<S>(taps: seq<Tap<S>>, c: Byte, commands: seq<Byte>)
    requires |taps| > 1
    ensures FirstThenRest(taps, [c] + commands) ==
            if c == READ then (FirstThenRest(taps, commands).0,
                               [taps[|taps| - 1].Read()] + FirstThenRest(taps, commands).1)
            else FirstThenRest(Clock(taps, c), commands)
  {
    ProbeStep(taps[0], c, commands);
    ProbedReads([c] + commands);
    ProbedReads(commands);
    var values := TapRun(taps[0], Probed([c] + commands)).1;
    ReplacedCons(c, commands, values);
    ProbedCons(c, commands);
    hide TapRun, Probed, Replaced, Lockstep, IsScan, Count, Scans;
    if IsScan(c) {
      var c' := WithTdi(c, values[0]);
      ScanCommand(c, values[0]);
      LockstepCons(taps[1..], c', Replaced(commands, values[1..]));
      assert Clock(taps, c)[1..] == Clock(taps[1..], c');
    } else {
      var rest := TapRun(if c == READ then taps[0] else taps[0].Do(c), Probed(commands)).1;
      assert [] + rest == rest == values;
      LockstepCons(taps[1..], c, Replaced(commands, values));
      if c != READ {
        assert Clock(taps, c)[1..] == Clock(taps[1..], c);
      }
    }
  }

  lemma ScanCommand(c: Byte, v: Byte)
    requires IsScan(c)
    ensures WithTdi(c, v) != READ
  {
    ScanStays(c, v);
  }

  /** Running the first TAP to the end before the others start makes no difference to a chain. */
  lemma {:induction false} FirstTapAlone<S>(taps: seq<Tap<S>>, commands: seq<Byte>)
    requires |taps| > 1
    ensures FirstThenRest(taps, commands) == Lockstep(taps, commands)
    decreases |commands|
  {
    if commands == [] {
      assert [taps[0]] + taps[1..] == taps;
    } else {
      var c, more := commands[0], commands[1..];
      assert [c] + more == commands;
      hide Lockstep, FirstThenRest;
      FirstThenRestStep(taps, c, more);
      LockstepCons(taps, c, more);
      FirstTapAlone(if c == READ then taps else Clock(taps, c), more);
    }
  }

  lemma {:induction false} LastTapAlone<S>(tap: Tap<S>, commands: seq<Byte>)
    ensures var (tap', out) := TapRun(tap, commands); Lockstep([tap], commands) == ([tap'], out)
    decreases |commands|
  {
    if commands != [] {
      if commands[0] == READ {
        LastTapAlone(tap, commands[1..]);
      } else {
        LastTapAlone(tap.Do(commands[0]), commands[1..]);
        assert Clock([tap], commands[0]) == [tap.Do(commands[0])];
      }
    }
  }

  /** The batch order is indistinguishable from a chain clocked in lockstep: the same bytes come
      back and every TAP ends in the same state. */
  lemma {:induction false} BatchIsLockstep<S>(taps: seq<Tap<S>>, commands: seq<Byte>)
    ensures Batch(taps, commands) == Lockstep(taps, commands)
    decreases |taps|
  {
    if taps == [] {
      EmptyChain<S>(commands);
    } else if |taps| == 1 {
      LastTapAlone(taps[0], commands);
      assert taps == [taps[0]];
    } else {
      FirstTapAlone(taps, commands);
      ProbedReads(commands);
      var (tap', values) := TapRun(taps[0], Probed(commands));
      BatchIsLockstep(taps[1..], Replaced(commands, values));
    }
  }

  lemma {:induction false} EmptyChain<S>(commands: seq<Byte>)
    ensures Lockstep<S>([], commands) == ([], [])
    decreases |commands|
  {
    if commands != [] {
      EmptyChain<S>(commands[1..]);
    }
  }

  // ---------- segmentation of the stream ----------

  /** Executing two pieces one after the other is executing their concatenation. */
  lemma {:induction false} ChunkingDoesNotMatter<S>(taps: seq<Tap<S>>, first: seq<Byte>, second: seq<Byte>)
    ensures var (mid, out1) := Lockstep(taps, first);
            var (end, out2) := Lockstep(mid, second);
            Lockstep(taps, first + second) == (end, out1 + out2)
    decreases |first|
  {
    if first == [] {
      assert [] + second == second;
      assert [] + Lockstep(taps, second).1 == Lockstep(taps, second).1;
    } else {
      var c, more := first[0], first[1..];
      assert first + second == [c] + (more + second) && first == [c] + more;
      if taps == [] {
        EmptyChain<S>(first);
        EmptyChain<S>(second);
        EmptyChain<S>(first + second);
        var none: seq<Byte> := [];
        assert none + none == none;
      } else {
        hide Lockstep;
        LockstepCons(taps, c, more);
        LockstepCons(taps, c, more + second);
        ChunkingDoesNotMatter(if c == READ then taps else Clock(taps, c), more, second);
        if c == READ {
          var (mid, out1) := Lockstep(taps, more);
          var byte, out2 := [taps[|taps| - 1].Read()], Lockstep(mid, second).1;
          assert byte + (out1 + out2) == (byte + out1) + out2;
        }
      }
    }
  }

  function Flatten(chunks: seq<seq<Byte>>): seq<Byte> {
    if chunks == [] then [] else Flatten(chunks[..|chunks| - 1]) + chunks[|chunks| - 1]
  }

  // ---------- all TAP controllers stay in step ----------

  /** The batches that execute sends, one per TAP. */
  function Streams<S>(taps: seq<Tap<S>>, commands: seq<Byte>): (r: seq<seq<Byte>>)
    ensures |r| == |taps|
    decreases |taps|
  {
    if taps == [] then []
    else if |taps| == 1 then [commands]
    else
      var values := TapRun(taps[0], Probed(commands)).1;
      ProbedReads(commands);
      [Probed(commands)] + Streams(taps[1..], Replaced(commands, values))
  }

  /** A machine that watches the commands of a TAP, such as its controller: it does not see TDI, and
      reading TDO does not disturb it. */
  ghost predicate TdiBlind<C(!new)>(watch: (C, Byte) -> C) {
    && (forall x: C, c: Byte, v: Byte :: IsScan(c) ==> watch(x, WithTdi(c, v)) == watch(x, c))
    && (forall x: C :: watch(x, READ) == x)
  }

  function Watch<C>(watch: (C, Byte) -> C, x: C, commands: seq<Byte>): C
    decreases |commands|
  {
    if commands == [] then x else Watch(watch, watch(x, commands[0]), commands[1..])
  }

  lemma {:induction false} ReplacedUnseen<C(!new)>(watch: (C, Byte) -> C, x: C, commands: seq<Byte>, values: seq<Byte>)
    requires TdiBlind(watch) && |values| == Scans(commands)
    ensures Watch(watch, x, Replaced(commands, values)) == Watch(watch, x, commands)
    decreases |commands|
  {
    if commands != [] {
      var c := commands[0];
      if IsScan(c) {
        assert watch(x, WithTdi(c, values[0])) == watch(x, c);
        ReplacedUnseen(watch, watch(x, c), commands[1..], values[1..]);
      } else {
        ReplacedUnseen(watch, watch(x, c), commands[1..], values);
      }
    }
  }

  lemma {:induction false} ProbedUnseen<C(!new)>(watch: (C, Byte) -> C, x: C, commands: seq<Byte>)
    requires TdiBlind(watch)
    ensures Watch(watch, x, Probed(commands)) == Watch(watch, x, commands)
    decreases |commands|
  {
    if commands != [] {
      var c, rest := commands[0], Probed(commands[1..]);
      ProbedUnseen(watch, watch(x, c), commands[1..]);
      if IsScan(c) {
        assert ([c, READ] + rest)[1..] == [READ] + rest && ([READ] + rest)[1..] == rest;
      } else if c != READ {
        assert ([c] + rest)[1..] == rest;
      } else {
        assert [] + rest == rest;
      }
    }
  }

  /** Every TAP's batch moves such a machine exactly as the caller's commands do, so that all TAP
      controllers, started alike, are always in the same state. */
  lemma {:induction false} InStep<S, C(!new)>(taps: seq<Tap<S>>, commands: seq<Byte>, watch: (C, Byte) -> C, x: C,
                                              i: nat)
    requires TdiBlind(watch) && i < |taps|
    ensures Watch(watch, x, Streams(taps, commands)[i]) == Watch(watch, x, commands)
    decreases |taps|
  {
    if |taps| > 1 {
      ProbedReads(commands);
      if i == 0 {
        ProbedUnseen(watch, x, commands);
      } else {
        var values := TapRun(taps[0], Probed(commands)).1;
        InStep(taps[1..], Replaced(commands, values), watch, x, i - 1);
        ReplacedUnseen(watch, x, commands, values);
      }
    }
  }

  /** The batches of Streams are what the TAPs execute. */
  lemma {:induction false} StreamsExecuted<S>(taps: seq<Tap<S>>, commands: seq<Byte>, i: nat)
    requires i < |taps|
    ensures |Batch(taps, commands).0| == |taps|
    ensures Batch(taps, commands).0[i] == TapRun(taps[i], Streams(taps, commands)[i]).0
    decreases |taps|
  {
    if |taps| > 1 {
      ProbedReads(commands);
      var values := TapRun(taps[0], Probed(commands)).1;
      StreamsExecuted(taps[1..], Replaced(commands, values), if i == 0 then 0 else i - 1);
    }
  }

  /** The sixteen states of the TAP controller, section 6.1 of IEEE 1149.1. */
  datatype Controller =
    | TestLogicReset | RunTestIdle
    | SelectDR | CaptureDR | ShiftDR | Exit1DR | PauseDR | Exit2DR | UpdateDR
    | SelectIR | CaptureIR | ShiftIR | Exit1IR | PauseIR | Exit2IR | UpdateIR

  function OnRisingClock(s: Controller, tms: bool): Controller {
    match s
    case TestLogicReset => if tms then TestLogicReset else RunTestIdle
    case RunTestIdle => if tms then SelectDR else RunTestIdle
    case SelectDR => if tms then SelectIR else CaptureDR
    case CaptureDR => if tms then Exit1DR else ShiftDR
    case ShiftDR => if tms then Exit1DR else ShiftDR
    case Exit1DR => if tms then UpdateDR else PauseDR
    case PauseDR => if tms then Exit2DR else PauseDR
    case Exit2DR => if tms then UpdateDR else ShiftDR
    case UpdateDR => if tms then SelectDR else RunTestIdle
    case SelectIR => if tms then TestLogicReset else CaptureIR
    case CaptureIR => if tms then Exit1IR else ShiftIR
    case ShiftIR => if tms then Exit1IR else ShiftIR
    case Exit1IR => if tms then UpdateIR else PauseIR
    case PauseIR => if tms then Exit2IR else PauseIR
    case Exit2IR => if tms then UpdateIR else ShiftIR
    case UpdateIR => if tms then SelectDR else RunTestIdle
  }

  /** A controller with the level of its TCK pin. */
  datatype Pins = Pins(tck: bool, controller: Controller)

  function Drive(p: Pins, c: Byte): Pins {
    if !IsScan(c) then p
    else Pins(c & 4 != 0, if !p.tck && c & 4 != 0 then OnRisingClock(p.controller, c & 2 != 0) else p.controller)
  }

  lemma TckAndTmsKept(c: Byte, v: Byte)
    ensures WithTdi(c, v) & 4 == c & 4 && WithTdi(c, v) & 2 == c & 2
  {
  }

  /** After any commands the controllers of all TAPs of the chain, started alike, are in one state. */
  lemma ControllersInStep<S>(taps: seq<Tap<S>>, commands: seq<Byte>, p: Pins, i: nat)
    requires i < |taps|
    ensures Watch(Drive, p, Streams(taps, commands)[i]) == Watch(Drive, p, commands)
  {
    forall x: Pins, c: Byte, v: Byte | IsScan(c)
      ensures Drive(x, WithTdi(c, v)) == Drive(x, c)
    {
      ScanStays(c, v);
      TckAndTmsKept(c, v);
    }
    InStep(taps, commands, Drive, p, i);
  }

  // ---------- Chain.execute ----------

  lemma {:induction false} ReplacedTwice(commands: seq<Byte>, values: seq<Byte>, values': seq<Byte>)
    requires |values| == |values'| == Scans(commands)
    ensures Replaced(Replaced(commands, values), values') == Replaced(commands, values')
  {
    if commands != [] {
      var c, more := commands[0], commands[1..];
      if IsScan(c) {
        ReplacedTwice(more, values[1..], values'[1..]);
        TdiReplaced(c, values[0], values'[0]);
        ScanStays(c, values[0]);
        assert ([WithTdi(c, values[0])] + Replaced(more, values[1..]))[1..] == Replaced(more, values[1..]);
      } else {
        ReplacedTwice(more, values, values');
        assert ([c] + Replaced(more, values))[1..] == Replaced(more, values);
      }
    }
  }

  /** What a TAP is sent for the commands that reach it: the last TAP gets them as they are; any
      other TAP is not sent 'R' but is made to read TDO after every scan. */
  function Wanted(last: bool, commands: seq<Byte>): seq<Byte> {
    if last then commands else Probed(commands)
  }

  function WantedOne(last: bool, c: Byte): seq<Byte> {
    if last then [c] else ProbedOne(c)
  }

  /** The commands that reach a TAP: the caller's, with TDI replaced unless it is the first. */
  function Reaching(first: bool, commands: seq<Byte>, values: seq<Byte>): seq<Byte>
    requires |values| == if first then 0 else Scans(commands)
  {
    if first then commands else Replaced(commands, values)
  }

  lemma NothingToCome(last: bool, first: bool, commands: seq<Byte>, values: seq<Byte>)
    requires commands == [] && |values| == if first then 0 else Scans(commands)
    ensures values == [] && Wanted(last, Reaching(first, commands, values)) == []
  {
  }

  lemma WantedCons(last: bool, c: Byte, commands: seq<Byte>)
    ensures Wanted(last, [c] + commands) == WantedOne(last, c) + Wanted(last, commands)
  {
    ProbedCons(c, commands);
  }

  /** The batch, from TAP i on, once the TAPs before it have run. */
  ghost predicate BatchFrom<S>(start: seq<Tap<S>>, commands: seq<Byte>, done: seq<Tap<S>>, i: nat, seen: seq<Byte>)
    requires i <= |start|
  {
    var (rest', out) := Batch(start[i..], seen);
    Batch(start, commands) == (done + rest', out)
  }

  lemma BatchStart<S>(start: seq<Tap<S>>, commands: seq<Byte>)
    ensures BatchFrom(start, commands, [], 0, commands)
  {
    assert start[0..] == start;
    assert [] + Batch(start, commands).0 == Batch(start, commands).0;
  }

  lemma BatchNext<S>(start: seq<Tap<S>>, commands: seq<Byte>, done: seq<Tap<S>>, i: nat, seen: seq<Byte>)
    requires i + 1 < |start| && BatchFrom(start, commands, done, i, seen)
    ensures var (tap', values) := TapRun(start[i], Probed(seen));
            |values| == Scans(seen) && BatchFrom(start, commands, done + [tap'], i + 1, Replaced(seen, values))
  {
    ProbedReads(seen);
    var (tap', values) := TapRun(start[i], Probed(seen));
    assert start[i..][1..] == start[i + 1..];
    var rest' := Batch(start[i + 1..], Replaced(seen, values)).0;
    assert done + ([tap'] + rest') == (done + [tap']) + rest';
  }

  lemma BatchLast<S>(start: seq<Tap<S>>, commands: seq<Byte>, done: seq<Tap<S>>, i: nat, seen: seq<Byte>)
    requires i + 1 == |start| && BatchFrom(start, commands, done, i, seen)
    ensures var (tap', out) := TapRun(start[i], seen); Batch(start, commands) == (done + [tap'], out)
  {
  }

  lemma NoCommands<S>(taps: seq<Tap<S>>)
    ensures Lockstep(taps, []) == (taps, [])
  {
  }

  class Chain<!S> {
    var taps: seq<Tap<S>>

    constructor ()
      ensures taps == []
    {
      taps := [];
    }

    method Append(tap: Tap<S>)
      modifies this
      ensures taps == old(taps) + [tap]
    {
      taps := taps + [tap];
    }

    static method Emit(batch: seq<Byte>, command: Byte, last: bool) returns (batch': seq<Byte>)
      ensures batch' == batch + WantedOne(last, command)
    {
      batch' := batch;
      if !last {
        if command != READ {
          batch' := batch' + [command];
        }
        if IsScan(command) {
          assert command != READ;
          batch' := batch' + [READ];
        }
      } else {
        batch' := batch' + [command];
      }
    }

    /** Replacing TDI: the next value is popped and becomes bit 0. */
    static method PopTdi(command: Byte, values: seq<Byte>) returns (command': Byte, values': seq<Byte>)
      requires IsScan(command) ==> values != []
      ensures command' == if IsScan(command) then WithTdi(command, values[0]) else command
      ensures values' == if IsScan(command) then values[1..] else values
    {
      command', values' := command, values;
      if IsScan(command) {
        var v := values[0];
        values' := values[1..];
        command' := command & 0xfe;
        if v == ONE {
          command' := command' | 1;
        }
      }
    }

    /** The loop of execute over the commands, for one TAP: the batch it is sent.  The values read
        from the TAP before are popped one per scan; none is missing and none is left over. */
    static method BuildBatch(commands: seq<Byte>, values0: seq<Byte>, first: bool, last: bool)
      returns (batch: seq<Byte>, values: seq<Byte>)
      requires |values0| == if first then 0 else Scans(commands)
      ensures values == []
      ensures batch == Wanted(last, Reaching(first, commands, values0))
    {
      hide Probed, Replaced, Scans, Wanted, WantedOne, IsScan, WithTdi;
      values, batch := values0, [];
      var j := 0;
      ghost var toCome := Reaching(first, commands, values0);
      ghost var seen := toCome;
      assert commands[0..] == commands;
      while j < |commands|
        invariant 0 <= j <= |commands| && |values| == if first then 0 else Scans(commands[j..])
        invariant toCome == Reaching(first, commands[j..], values)
        invariant Wanted(last, seen) == batch + Wanted(last, toCome)
      {
        var command := commands[j];
        ghost var more := commands[j + 1..];
        assert commands[j..] == [command] + more;
        if !first {
          ReplacedCons(command, more, values);
          command, values := PopTdi(command, values);
        }
        ghost var rest := Reaching(first, more, values);
        assert toCome == [command] + rest;
        WantedCons(last, command, rest);
        ghost var before := batch;
        batch := Emit(batch, command, last);
        assert before + (WantedOne(last, command) + Wanted(last, rest)) == batch + Wanted(last, rest);
        toCome := rest;
        j := j + 1;
      }
      NothingToCome(last, first, commands[j..], values);
    }

    /** Chain.execute behaves as one chain clocked in lockstep. */
    method Execute(commands: seq<Byte>) returns (result: seq<Byte>)
      modifies this
      ensures (taps, result) == Lockstep(old(taps), commands)
    {
      ghost var start := taps;
      BatchIsLockstep(start, commands);
      hide Lockstep, TapRun, Batch, BatchFrom, Replaced, Scans, Probed;
      var values: seq<Byte> := [];
      ghost var seen := commands;
      var i := 0;
      BatchStart(start, commands);
      while i < |taps|
        invariant 0 <= i <= |taps| == |start| && (forall k :: i <= k < |taps| ==> taps[k] == start[k])
        invariant if i == 0 then values == [] && seen == commands
                  else i < |start| ==> |values| == Scans(commands) && seen == Replaced(commands, values)
        invariant i < |start| ==> BatchFrom(start, commands, taps[..i], i, seen)
        invariant 0 < i == |start| ==> Batch(start, commands) == (taps, values)
      {
        var last := i == |taps| - 1;
        var batch, left := BuildBatch(commands, values, i == 0, last);
        assert left == [];
        ghost var before := values;
        if last {
          BatchLast(start, commands, taps[..i], i, seen);
        } else {
          BatchNext(start, commands, taps[..i], i, seen);
        }
        var r := TapRun(taps[i], batch);
        ghost var done := taps[..i];
        values := r.1;
        taps := taps[i := r.0];
        assert taps[..i + 1] == done + [r.0];
        if !last {
          if i > 0 {
            ReplacedTwice(commands, before, values);
          }
          seen := Replaced(commands, values);
        } else {
          assert taps[..i + 1] == taps;
        }
        i := i + 1;
      }
      result := values;
      if |taps| == 0 {
        EmptyChain<S>(commands);
      }
    }

    /** The server loop: each chunk received is executed and its result sent back, until the client
        disconnects, which reads as an empty chunk. */
    method Serve(chunks: seq<seq<Byte>>) returns (sent: seq<Byte>, n: nat)
      modifies this
      ensures n <= |chunks| && (forall k :: 0 <= k < n ==> chunks[k] != []) && (n < |chunks| ==> chunks[n] == [])
      ensures (taps, sent) == Lockstep(old(taps), Flatten(chunks[..n]))
    {
      hide Lockstep;
      sent, n := [], 0;
      NoCommands(taps);
      while n < |chunks| && chunks[n] != []
        invariant n <= |chunks| && (forall k :: 0 <= k < n ==> chunks[k] != [])
        invariant (taps, sent) == Lockstep(old(taps), Flatten(chunks[..n]))
      {
        ghost var soFar := Flatten(chunks[..n]);
        ChunkingDoesNotMatter(old(taps), soFar, chunks[n]);
        var result := Execute(chunks[n]);
        sent := sent + result;
        n := n + 1;
        assert chunks[..n][..n - 1] == chunks[..n - 1];
      }
    }
  }
}
