/** The order in which a std::map is traversed. */
module Ascending {
  ghost predicate IsLeast(id: int, ids: set<int>) { id in ids && forall k :: k in ids ==> id <= k }

  lemma SameMembers(a: set<int>, b: set<int>)
    requires forall x :: x in a <==> x in b
    ensures a == b
  {
    assert forall x :: x in a <==> x in b;
  }

  lemma HasMember(ids: set<int>)
    requires ids != {}
    ensures exists x :: x in ids
  {
    if forall x :: x !in ids {
      SameMembers(ids, {});
      assert false;
    }
  }

  lemma {:induction false} LeastExists(ids: set<int>)
    requires ids != {}
    ensures exists id :: IsLeast(id, ids)
    decreases |ids|
  {
    HasMember(ids);
    var x :| x in ids;
    var others := ids - {x};
    var least := x;
    if others != {} {
      LeastExists(others);
      var y :| IsLeast(y, others);
      least := if x < y then x else y;
    }
    forall k | k in ids
      ensures least <= k
    {
      assert k == x || k in others;
    }
    assert IsLeast(least, ids);
  }
}

/** simulator/kanata.cpp: the pipeline trace in the Kanata format.

    Each call reports which instruction each pipeline port holds in one cycle.  The tracer keeps the
    stage it last recorded for every instruction id and appends the lines that changed. */
module Kanata {
  import opened Ascending

  datatype Stage = FETCH | DECODE | EXECUTE | MEMORY | WRITEBACK | COMMIT | NONE

  /** A line of the trace.  Start and End are the S and E lines; Retire(id, flushed) is the R line. */
  datatype Event =
    | Header
    | Cycle
    | Introduce(id: int)
    | Start(id: int, stage: Stage)
    | End(id: int, stage: Stage)
    | Label(id: int, pc: int, instr: int)
    | Retire(id: int, flushed: bool)

  /** The arguments of print_kanata. */
  datatype Ports = Ports(
    validDecode: bool, validExecute: bool, validMemory: bool, validWriteback: bool, validCommit: bool,
    fetch: int, decode: int, execute: int, memory: int, writeback: int, commit: int,
    pc: int, instr: int, flush: bool)

  type Record = map<int, Stage>

  function Recorded(r: Record, id: int): Stage { if id in r then r[id] else NONE }

  // ---------- what one call appends, and the new record ----------

  /** The E and S lines of a port: an instruction recorded in another stage has moved on. */
  function Moved(prev: Stage, valid: bool, id: int, from: Stage, to: Stage): seq<Event> {
    if prev != to && valid && prev != NONE then [End(id, from), Start(id, to)] else []
  }

  function Fetched(prev: Stage, id: int): seq<Event> {
    if prev != FETCH then [Introduce(id), Start(id, FETCH)] else []
  }

  function Labelled(prev: Stage, valid: bool, id: int, pc: int, instr: int): seq<Event> {
    if prev != DECODE && valid && prev != NONE then [Label(id, pc, instr)] else []
  }

  predicate Commits(prev: Stage, valid: bool) { prev != COMMIT && valid && prev != NONE }

  function Committed(prev: Stage, valid: bool, id: int): seq<Event> {
    if Commits(prev, valid) then [End(id, WRITEBACK), Retire(id, false)] else []
  }

  /** The lines of a call without flush. */
  function Lines(r: Record, p: Ports): seq<Event> {
    Fetched(Recorded(r, p.fetch), p.fetch)
    + Moved(Recorded(r, p.decode), p.validDecode, p.decode, FETCH, DECODE)
    + Labelled(Recorded(r, p.decode), p.validDecode, p.decode, p.pc, p.instr)
    + Moved(Recorded(r, p.execute), p.validExecute, p.execute, DECODE, EXECUTE)
    + Moved(Recorded(r, p.memory), p.validMemory, p.memory, EXECUTE, MEMORY)
    + Moved(Recorded(r, p.writeback), p.validWriteback, p.writeback, MEMORY, WRITEBACK)
    + Committed(Recorded(r, p.commit), p.validCommit, p.commit)
  }

  /** Recording the instruction at a port, given the stage it had when the call began. */
  function Note(r: Record, prev: Stage, valid: bool, id: int, stage: Stage): Record {
    if valid && prev != NONE then r[id := stage]
    else if prev == NONE then r[id := NONE]
    else r
  }

  function Noted(r: Record, p: Ports): Record {
    var r0 := if Commits(Recorded(r, p.commit), p.validCommit) then r - {p.commit} else r;
    var r1 := r0[p.fetch := FETCH];
    var r2 := Note(r1, Recorded(r, p.decode), p.validDecode, p.decode, DECODE);
    var r3 := Note(r2, Recorded(r, p.execute), p.validExecute, p.execute, EXECUTE);
    var r4 := Note(r3, Recorded(r, p.memory), p.validMemory, p.memory, MEMORY);
    Note(r4, Recorded(r, p.writeback), p.validWriteback, p.writeback, WRITEBACK)
  }

  /** The lines a flush prints for one recorded instruction. */
  function FlushLines(id: int, stage: Stage, commit: int): seq<Event> {
    if stage != COMMIT && stage != NONE && !(stage == WRITEBACK && id == commit) then [End(id, stage), Retire(id, true)]
    else if stage == WRITEBACK && id == commit then [End(id, WRITEBACK), Retire(id, false)]
    else if stage == NONE then [Retire(id, true)]
    else []
  }

  /** The lines of a flush, in the order of the ids, as the map is traversed. */
  ghost function AllFlushLines(r: Record, ids: set<int>, commit: int): seq<Event>
    requires ids <= r.Keys
  {
    if ids == {} then []
    else
      LeastExists(ids);
      var id :| IsLeast(id, ids);
      FlushLines(id, r[id], commit) + AllFlushLines(r, ids - {id}, commit)
  }

  /** The record after a call, and everything the call prints. */
  function After(r: Record, p: Ports): Record { if p.flush then map[] else Noted(r, p) }

  ghost function CallLines(r: Record, p: Ports): seq<Event> {
    [Cycle] + if p.flush then AllFlushLines(r, r.Keys, p.commit) else Lines(r, p)
  }

  lemma CallCases(r: Record, p: Ports, log: seq<Event>)
    ensures p.flush ==>
              log + CallLines(r, p) == log + [Cycle] + AllFlushLines(r, r.Keys, p.commit) && After(r, p) == map[]
    ensures !p.flush ==> log + CallLines(r, p) == log + [Cycle] + Lines(r, p) && After(r, p) == Noted(r, p)
  {
    hide AllFlushLines, Lines, Noted;
  }

  // ---------- the tracer ----------

  class Tracer {
    var stages: Record
    var log: seq<Event>

    /** init_kanata */
    constructor ()
      ensures stages == RecordAfter([]) && log == Trace([])
    {
      log := [Header];
      stages := map[];
    }

    /** print_kanata */
    method Print(p: Ports)
      modifies this
      ensures log == old(log) + CallLines(old(stages), p) && stages == After(old(stages), p)
    {
      log := log + [Cycle];
      hide *;
      CallCases(stages, p, old(log));
      if p.flush {
        Flush(p.commit);
      } else {
        PrintCycle(p);
      }
    }

    /** The lines of one port, given the stage recorded for its instruction when the call began. */
    method PrintMoved(prev: Stage, valid: bool, id: int, from: Stage, to: Stage)
      modifies `log
      ensures log == old(log) + Moved(prev, valid, id, from, to)
    {
      if prev != to && valid && prev != NONE {
        log := log + [End(id, from)];
        log := log + [Start(id, to)];
      }
    }

    /** The branch without flush: every recorded stage is read first, then the lines are printed, and
        then the record is brought up to date. */
    method PrintCycle(p: Ports)
      modifies this
      ensures log == old(log) + Lines(old(stages), p) && stages == Noted(old(stages), p)
    {
      var prevFetch, prevDecode := Recorded(stages, p.fetch), Recorded(stages, p.decode);
      var prevExecute, prevMemory := Recorded(stages, p.execute), Recorded(stages, p.memory);
      var prevWriteback, prevCommit := Recorded(stages, p.writeback), Recorded(stages, p.commit);
      hide Recorded, Note, Commits, Fetched, Moved, Labelled, Committed;
      PrintFront(prevFetch, prevDecode, p);
      PrintMoved(prevExecute, p.validExecute, p.execute, DECODE, EXECUTE);
      PrintMoved(prevMemory, p.validMemory, p.memory, EXECUTE, MEMORY);
      PrintMoved(prevWriteback, p.validWriteback, p.writeback, MEMORY, WRITEBACK);
      Commit(prevCommit, p);
      stages := stages[p.fetch := FETCH];
      NoteStage(prevDecode, p.validDecode, p.decode, DECODE);
      NoteStage(prevExecute, p.validExecute, p.execute, EXECUTE);
      NoteStage(prevMemory, p.validMemory, p.memory, MEMORY);
      NoteStage(prevWriteback, p.validWriteback, p.writeback, WRITEBACK);
    }

    method PrintFront(prevFetch: Stage, prevDecode: Stage, p: Ports)
      modifies `log
      ensures log == old(log) + (Fetched(prevFetch, p.fetch) + Moved(prevDecode, p.validDecode, p.decode, FETCH, DECODE)
                                 + Labelled(prevDecode, p.validDecode, p.decode, p.pc, p.instr))
    {
      if prevFetch != FETCH {
        log := log + [Introduce(p.fetch), Start(p.fetch, FETCH)];
      }
      PrintMoved(prevDecode, p.validDecode, p.decode, FETCH, DECODE);
      if prevDecode != DECODE && p.validDecode && prevDecode != NONE {
        log := log + [Label(p.decode, p.pc, p.instr)];
      }
    }

    method Commit(prev: Stage, p: Ports)
      modifies this
      ensures log == old(log) + Committed(prev, p.validCommit, p.commit)
      ensures stages == if Commits(prev, p.validCommit) then old(stages) - {p.commit} else old(stages)
    {
      if prev != COMMIT && p.validCommit && prev != NONE {
        log := log + [End(p.commit, WRITEBACK), Retire(p.commit, false)];
        stages := stages - {p.commit};
      }
    }

    method NoteStage(prev: Stage, valid: bool, id: int, stage: Stage)
      modifies `stages
      ensures stages == Note(old(stages), prev, valid, id, stage)
    {
      if valid && prev != NONE {
        stages := stages[id := stage];
      } else if prev == NONE {
        stages := stages[id := NONE];
      }
    }

    /** The loop over instruction_stage when the pipeline is flushed. */
    method Flush(commit: int)
      modifies this
      ensures log == old(log) + AllFlushLines(old(stages), old(stages).Keys, commit) && stages == map[]
    {
      var ids := stages.Keys;
      while ids != {}
        invariant ids <= stages.Keys && stages == old(stages)
        invariant log + AllFlushLines(stages, ids, commit) == old(log) + AllFlushLines(stages, stages.Keys, commit)
        decreases |ids|
      {
        LeastExists(ids);
        var id :| id in ids && forall k :: k in ids ==> id <= k;
        assert forall k :: IsLeast(k, ids) ==> k == id;
        assert IsLeast(id, ids);
        var stage := stages[id];
        ghost var rest := AllFlushLines(stages, ids - {id}, commit);
        assert AllFlushLines(stages, ids, commit) == FlushLines(id, stage, commit) + rest;
        assert log + (FlushLines(id, stage, commit) + rest) == (log + FlushLines(id, stage, commit)) + rest;
        if stage != COMMIT && stage != NONE && !(stage == WRITEBACK && id == commit) {
          log := log + [End(id, stage), Retire(id, true)];
        } else if stage == WRITEBACK && id == commit {
          log := log + [End(id, WRITEBACK), Retire(id, false)];
        } else if stage == NONE {
          log := log + [Retire(id, true)];
        }
        ids := ids - {id};
      }
      stages := map[];
    }
  }

  // ---------- which lines a call prints ----------

  /** Exactly which lines a call without flush prints, whatever the record and the ports. */
  lemma LinesPrint(r: Record, p: Ports, e: Event)
    ensures e in Lines(r, p) <==>
            || (e.Introduce? && e.id == p.fetch && !(p.fetch in r && r[p.fetch] == FETCH))
            || (e == Start(p.fetch, FETCH) && !(p.fetch in r && r[p.fetch] == FETCH))
            || ((e == End(p.decode, FETCH) || e == Start(p.decode, DECODE) || e == Label(p.decode, p.pc, p.instr))
                && p.validDecode && p.decode in r && r[p.decode] != NONE && r[p.decode] != DECODE)
            || ((e == End(p.execute, DECODE) || e == Start(p.execute, EXECUTE))
                && p.validExecute && p.execute in r && r[p.execute] != NONE && r[p.execute] != EXECUTE)
            || ((e == End(p.memory, EXECUTE) || e == Start(p.memory, MEMORY))
                && p.validMemory && p.memory in r && r[p.memory] != NONE && r[p.memory] != MEMORY)
            || ((e == End(p.writeback, MEMORY) || e == Start(p.writeback, WRITEBACK))
                && p.validWriteback && p.writeback in r && r[p.writeback] != NONE && r[p.writeback] != WRITEBACK)
            || ((e == End(p.commit, WRITEBACK) || e == Retire(p.commit, false))
                && p.validCommit && p.commit in r && r[p.commit] != NONE && r[p.commit] != COMMIT)
  {
    LinesAre(r, p, e);
    hide Lines;
  }

  /** A line is printed for one of the ports. */
  lemma LinesAre(r: Record, p: Ports, e: Event)
    ensures e in Lines(r, p) <==>
            || e in Fetched(Recorded(r, p.fetch), p.fetch)
            || e in Moved(Recorded(r, p.decode), p.validDecode, p.decode, FETCH, DECODE)
            || e in Labelled(Recorded(r, p.decode), p.validDecode, p.decode, p.pc, p.instr)
            || e in Moved(Recorded(r, p.execute), p.validExecute, p.execute, DECODE, EXECUTE)
            || e in Moved(Recorded(r, p.memory), p.validMemory, p.memory, EXECUTE, MEMORY)
            || e in Moved(Recorded(r, p.writeback), p.validWriteback, p.writeback, MEMORY, WRITEBACK)
            || e in Committed(Recorded(r, p.commit), p.validCommit, p.commit)
  {
    hide Fetched, Moved, Labelled, Committed, Recorded;
  }

  /** A place in the order of the lines of one call. */
  function Place(e: Event): int {
    match e
    case Introduce(_) => 0
    case Start(_, FETCH) => 1
    case End(_, FETCH) => 2
    case Start(_, DECODE) => 3
    case Label(_, _, _) => 4
    case End(_, DECODE) => 5
    case Start(_, EXECUTE) => 6
    case End(_, EXECUTE) => 7
    case Start(_, MEMORY) => 8
    case End(_, MEMORY) => 9
    case Start(_, WRITEBACK) => 10
    case End(_, WRITEBACK) => 11
    case Retire(_, _) => 12
    case _ => -1
  }

  predicate InPlaces(lines: seq<Event>, lo: int, hi: int) {
    && (forall k :: 0 <= k < |lines| ==> lo <= Place(lines[k]) < hi)
    && (forall k, l :: 0 <= k < l < |lines| ==> Place(lines[k]) < Place(lines[l]))
  }

  lemma PlacesJoin(a: seq<Event>, b: seq<Event>, lo: int, mid: int, hi: int)
    requires InPlaces(a, lo, mid) && InPlaces(b, mid, hi) && lo <= mid <= hi
    ensures InPlaces(a + b, lo, hi)
  {
    hide Place;
  }

  lemma MovedPlaces(prev: Stage, valid: bool, id: int, to: Stage)
    requires to in {DECODE, EXECUTE, MEMORY, WRITEBACK}
    ensures var lo := match to case DECODE => 2 case EXECUTE => 5 case MEMORY => 7 case _ => 9;
            InPlaces(Moved(prev, valid, id, Before(to), to), lo, lo + 2)
  {
  }

  lemma OtherPlaces(r: Record, p: Ports)
    ensures InPlaces(Fetched(Recorded(r, p.fetch), p.fetch), 0, 2)
    ensures InPlaces(Labelled(Recorded(r, p.decode), p.validDecode, p.decode, p.pc, p.instr), 4, 5)
    ensures InPlaces(Committed(Recorded(r, p.commit), p.validCommit, p.commit), 11, 13)
  {
  }

  /** The lines come in the order of the stages, and none of them twice. */
  lemma LinesInOrder(r: Record, p: Ports)
    ensures InPlaces(Lines(r, p), 0, 13)
    ensures forall k, l :: 0 <= k < l < |Lines(r, p)| ==> Lines(r, p)[k] != Lines(r, p)[l]
  {
    hide Moved, Fetched, Labelled, Committed, Recorded, InPlaces, Place;
    var a := Fetched(Recorded(r, p.fetch), p.fetch);
    var b := Moved(Recorded(r, p.decode), p.validDecode, p.decode, FETCH, DECODE);
    var c := Labelled(Recorded(r, p.decode), p.validDecode, p.decode, p.pc, p.instr);
    var d := Moved(Recorded(r, p.execute), p.validExecute, p.execute, DECODE, EXECUTE);
    var e := Moved(Recorded(r, p.memory), p.validMemory, p.memory, EXECUTE, MEMORY);
    var f := Moved(Recorded(r, p.writeback), p.validWriteback, p.writeback, MEMORY, WRITEBACK);
    var g := Committed(Recorded(r, p.commit), p.validCommit, p.commit);
    OtherPlaces(r, p);
    MovedPlaces(Recorded(r, p.decode), p.validDecode, p.decode, DECODE);
    MovedPlaces(Recorded(r, p.execute), p.validExecute, p.execute, EXECUTE);
    MovedPlaces(Recorded(r, p.memory), p.validMemory, p.memory, MEMORY);
    MovedPlaces(Recorded(r, p.writeback), p.validWriteback, p.writeback, WRITEBACK);
    PlacesJoin(a, b, 0, 2, 4);
    PlacesJoin(a + b, c, 0, 4, 5);
    PlacesJoin(a + b + c, d, 0, 5, 7);
    PlacesJoin(a + b + c + d, e, 0, 7, 9);
    PlacesJoin(a + b + c + d + e, f, 0, 9, 11);
    PlacesJoin(a + b + c + d + e + f, g, 0, 11, 13);
    PlacesDiffer(Lines(r, p), 0, 13);
  }

  lemma PlacesDiffer(lines: seq<Event>, lo: int, hi: int)
    requires InPlaces(lines, lo, hi)
    ensures forall k, l :: 0 <= k < l < |lines| ==> lines[k] != lines[l]
  {
    hide Place;
  }

  /** All ids are at least lo. */
  predicate IdsFrom(lines: seq<Event>, lo: int) { forall k :: 0 <= k < |lines| ==> lo <= IdOf(lines[k]) }

  predicate IdsAscend(lines: seq<Event>) {
    forall k, l :: 0 <= k <= l < |lines| ==> IdOf(lines[k]) <= IdOf(lines[l])
  }

  lemma ThenHigherIds(first: seq<Event>, rest: seq<Event>, id: int)
    requires (forall k :: 0 <= k < |first| ==> IdOf(first[k]) == id) && IdsFrom(rest, id) && IdsAscend(rest)
    ensures IdsFrom(first + rest, id) && IdsAscend(first + rest)
  {
    hide IdOf;
  }

  lemma {:induction false} FlushIds(r: Record, ids: set<int>, commit: int, lo: int)
    requires ids <= r.Keys && forall id :: id in ids ==> lo <= id
    ensures IdsFrom(AllFlushLines(r, ids, commit), lo) && IdsAscend(AllFlushLines(r, ids, commit))
    decreases |ids|
  {
    if ids != {} {
      LeastExists(ids);
      var id :| IsLeast(id, ids)
                && AllFlushLines(r, ids, commit) == FlushLines(id, r[id], commit)
                    + AllFlushLines(r, ids - {id}, commit);
      FlushIds(r, ids - {id}, commit, id);
      assert forall k :: 0 <= k < |FlushLines(id, r[id], commit)| ==> IdOf(FlushLines(id, r[id], commit)[k]) == id;
      hide FlushLines, IdOf, IdsAscend, AllFlushLines;
      ThenHigherIds(FlushLines(id, r[id], commit), AllFlushLines(r, ids - {id}, commit), id);
    }
  }

  /** A flush goes through the ids upwards. */
  lemma FlushAscends(r: Record, commit: int, k: nat, l: nat)
    requires k <= l < |AllFlushLines(r, r.Keys, commit)|
    ensures IdOf(AllFlushLines(r, r.Keys, commit)[k]) <= IdOf(AllFlushLines(r, r.Keys, commit)[l])
  {
    hide AllFlushLines, IdOf;
    if r.Keys != {} {
      LeastExists(r.Keys);
      var id :| IsLeast(id, r.Keys);
      FlushIds(r, r.Keys, commit, id);
    } else {
      FlushIds(r, r.Keys, commit, 0);
    }
  }

  function IdOf(e: Event): int {
    match e
    case Introduce(id) => id
    case Start(id, _) => id
    case End(id, _) => id
    case Label(id, _, _) => id
    case Retire(id, _) => id
    case _ => -1
  }

  lemma {:induction false} FlushOnly(r: Record, ids: set<int>, commit: int, e: Event)
    requires ids <= r.Keys && e in AllFlushLines(r, ids, commit)
    ensures e.End? || e.Retire?
    decreases |ids|
  {
    if ids != {} {
      LeastExists(ids);
      var id :| IsLeast(id, ids)
                && AllFlushLines(r, ids, commit) == FlushLines(id, r[id], commit)
                    + AllFlushLines(r, ids - {id}, commit);
      if e !in FlushLines(id, r[id], commit) {
        FlushOnly(r, ids - {id}, commit, e);
      }
    }
  }

  /** The line of the cycle comes first, and there is one. */
  lemma OneCycle(r: Record, p: Ports, k: nat)
    requires k < |CallLines(r, p)|
    ensures CallLines(r, p)[k] == Cycle <==> k == 0
    ensures CallLines(r, p)[k] != Header
  {
    if k > 0 {
      hide Lines, AllFlushLines;
      var e := CallLines(r, p)[k];
      if p.flush {
        assert e in AllFlushLines(r, r.Keys, p.commit);
        FlushOnly(r, r.Keys, p.commit, e);
      } else {
        assert e in Lines(r, p);
        LinesPrint(r, p, e);
      }
    }
  }

  /** The stage of one id after a port has been recorded. */
  lemma NoteAt(r: Record, prev: Stage, valid: bool, id: int, stage: Stage, other: int)
    ensures Recorded(Note(r, prev, valid, id, stage), other) ==
            if other == id && valid && prev != NONE then stage
            else if other == id && prev == NONE then NONE
            else Recorded(r, other)
  {
  }

  lemma FetchAt(r: Record, p: Ports, id: int)
    ensures var r0 := if Commits(Recorded(r, p.commit), p.validCommit) then r - {p.commit} else r;
            Recorded(r0[p.fetch := FETCH], id) ==
            if id == p.fetch then FETCH
            else if p.validCommit && id == p.commit && Recorded(r, id) != NONE && Recorded(r, id) != COMMIT then NONE
            else Recorded(r, id)
  {
  }

  /** The record after a call without flush, id by id, whatever the ports: the last valid port of a
      recorded id decides; an id that was not recorded is lost where a port after fetch shows it. */
  lemma RecordIs(r: Record, p: Ports, id: int)
    ensures
      var known := id in r && r[id] != NONE;
      Recorded(Noted(r, p), id) ==
        if known && p.validWriteback && id == p.writeback then WRITEBACK
        else if known && p.validMemory && id == p.memory then MEMORY
        else if known && p.validExecute && id == p.execute then EXECUTE
        else if known && p.validDecode && id == p.decode then DECODE
        else if !known && (id == p.decode || id == p.execute || id == p.memory || id == p.writeback) then NONE
        else if id == p.fetch then FETCH
        else if !known || (p.validCommit && id == p.commit && r[id] != COMMIT) then NONE
        else r[id]
  {
    RecordedIs(r, id);
    hide Note, Recorded, Commits;
    var r0 := if Commits(Recorded(r, p.commit), p.validCommit) then r - {p.commit} else r;
    var r1 := r0[p.fetch := FETCH];
    var r2 := Note(r1, Recorded(r, p.decode), p.validDecode, p.decode, DECODE);
    var r3 := Note(r2, Recorded(r, p.execute), p.validExecute, p.execute, EXECUTE);
    var r4 := Note(r3, Recorded(r, p.memory), p.validMemory, p.memory, MEMORY);
    FetchAt(r, p, id);
    NoteAt(r1, Recorded(r, p.decode), p.validDecode, p.decode, DECODE, id);
    NoteAt(r2, Recorded(r, p.execute), p.validExecute, p.execute, EXECUTE, id);
    NoteAt(r3, Recorded(r, p.memory), p.validMemory, p.memory, MEMORY, id);
    NoteAt(r4, Recorded(r, p.writeback), p.validWriteback, p.writeback, WRITEBACK, id);
  }

  lemma RecordedIs(r: Record, id: int)
    ensures Recorded(r, id) == if id in r && r[id] != NONE then r[id] else NONE
  {
  }

  // ---------- what a trace means ----------

  /** Where a reader of the trace has got with an instruction: introduced, in a stage, or past it. */
  datatype Life = Introduced | In(stage: Stage) | Left(stage: Stage)

  /** What a reader makes of a trace: the instructions alive, or that a line did not fit. */
  datatype Reading = Broken | Alive(m: map<int, Life>)

  /** The stage before. */
  function Before(s: Stage): Stage {
    match s
    case DECODE => FETCH
    case EXECUTE => DECODE
    case MEMORY => EXECUTE
    case WRITEBACK => MEMORY
    case COMMIT => WRITEBACK
    case _ => NONE
  }

  /** An instruction is introduced when it is not alive, starts FETCH next, starts every other stage
      only when it has left the stage before, ends only the stage it is in, and retires between
      stages.  (A flush also retires ids that were never introduced.) */
  predicate Fits(m: map<int, Life>, e: Event) {
    match e
    case Header => true
    case Cycle => true
    case Label(_, _, _) => true
    case Introduce(id) => id !in m
    case Start(id, s) => id in m && (if s == FETCH then m[id] == Introduced
                                     else Before(s) != NONE && m[id] == Left(Before(s)))
    case End(id, s) => id in m && m[id] == In(s)
    case Retire(id, _) => id in m ==> m[id].Left?
  }

  function Read(r: Reading, e: Event): Reading {
    if r.Broken? || !Fits(r.m, e) then Broken
    else
      match e
      case Introduce(id) => Alive(r.m[id := Introduced])
      case Start(id, s) => Alive(r.m[id := In(s)])
      case End(id, s) => Alive(r.m[id := Left(s)])
      case Retire(id, _) => Alive(r.m - {id})
      case _ => r
  }

  function ReadAll(r: Reading, events: seq<Event>): Reading
    decreases |events|
  {
    if events == [] then r else ReadAll(Read(r, events[0]), events[1..])
  }

  lemma {:induction false} ReadBoth(r: Reading, a: seq<Event>, b: seq<Event>)
    ensures ReadAll(r, a + b) == ReadAll(ReadAll(r, a), b)
    decreases |a|
  {
    if a == [] {
      assert a + b == b;
    } else {
      assert (a + b)[1..] == a[1..] + b;
      ReadBoth(Read(r, a[0]), a[1..], b);
    }
  }

  lemma ReadSeven(
    r: Reading, a: seq<Event>, b: seq<Event>, c: seq<Event>, d: seq<Event>, e: seq<Event>, f: seq<Event>, g: seq<Event>)
    ensures ReadAll(r, a + b + c + d + e + f + g)
         == ReadAll(ReadAll(ReadAll(ReadAll(ReadAll(ReadAll(ReadAll(r, a), b), c), d), e), f), g)
  {
    hide ReadAll;
    ReadBoth(r, a, b);
    ReadBoth(r, a + b, c);
    ReadBoth(r, a + b + c, d);
    ReadBoth(r, a + b + c + d, e);
    ReadBoth(r, a + b + c + d + e, f);
    ReadBoth(r, a + b + c + d + e + f, g);
  }

  lemma ReadTwo(r: Reading, e: Event, e': Event)
    ensures ReadAll(r, [e, e']) == Read(Read(r, e), e')
  {
    assert [e, e'][1..] == [e'] && [e'][1..] == [];
    assert ReadAll(Read(r, e), [e']) == ReadAll(Read(Read(r, e), e'), []);
  }

  lemma {:induction false} BrokenStays(events: seq<Event>)
    ensures ReadAll(Broken, events) == Broken
    decreases |events|
  {
    if events != [] {
      BrokenStays(events[1..]);
    }
  }

  /** The reading that matches a record: alive are the ids recorded in a stage, each in that stage. */
  function Open(r: Record): Reading {
    Alive(map id | id in r && r[id] != NONE :: In(r[id]))
  }

  // ---------- when one call keeps trace and record together ----------

  /** A newly fetched id is at none of the ports from decode to writeback, valid or not. */
  predicate FetchedAlone(r: Record, p: Ports) {
    Recorded(r, p.fetch) == NONE ==> p.fetch !in {p.decode, p.execute, p.memory, p.writeback}
  }

  /** The ports a call acts on do not name one instruction twice: fetch, and decode, execute, memory,
      writeback and commit where they are valid and hold a recorded instruction. */
  predicate ActingApart(r: Record, p: Ports) {
    var d, x, m, w, c :=
      p.validDecode && Recorded(r, p.decode) != NONE, p.validExecute && Recorded(r, p.execute) != NONE,
      p.validMemory && Recorded(r, p.memory) != NONE, p.validWriteback && Recorded(r, p.writeback) != NONE,
      p.validCommit && Recorded(r, p.commit) != NONE;
    && (d ==> p.decode != p.fetch) && (x ==> p.execute != p.fetch) && (m ==> p.memory != p.fetch)
    && (w ==> p.writeback != p.fetch) && (c ==> p.commit != p.fetch)
    && (d && x ==> p.decode != p.execute) && (d && m ==> p.decode != p.memory)
    && (d && w ==> p.decode != p.writeback) && (d && c ==> p.decode != p.commit)
    && (x && m ==> p.execute != p.memory) && (x && w ==> p.execute != p.writeback)
    && (x && c ==> p.execute != p.commit) && (m && w ==> p.memory != p.writeback)
    && (m && c ==> p.memory != p.commit) && (w && c ==> p.writeback != p.commit)
  }

  predicate NoClash(r: Record, p: Ports) { FetchedAlone(r, p) && ActingApart(r, p) }

  /** A valid port holding a recorded instruction finds it in the port's stage or the one before. */
  predicate PortOk(r: Record, valid: bool, id: int, stage: Stage) {
    valid && Recorded(r, id) != NONE ==> Recorded(r, id) == stage || Recorded(r, id) == Before(stage)
  }

  /** No instruction skips a stage or goes back, and fetch holds a new or a fetched instruction. */
  predicate InOrder(r: Record, p: Ports) {
    && (Recorded(r, p.fetch) == FETCH || Recorded(r, p.fetch) == NONE)
    && PortOk(r, p.validDecode, p.decode, DECODE) && PortOk(r, p.validExecute, p.execute, EXECUTE)
    && PortOk(r, p.validMemory, p.memory, MEMORY) && PortOk(r, p.validWriteback, p.writeback, WRITEBACK)
    && PortOk(r, p.validCommit, p.commit, COMMIT)
  }

  /** COMMIT is never recorded. */
  predicate NoCommit(r: Record) { forall id :: id in r ==> r[id] != COMMIT }

  /** Reading the lines of one port. */
  lemma MovedReads(m: map<int, Life>, prev: Stage, valid: bool, id: int, to: Stage)
    requires to in {DECODE, EXECUTE, MEMORY, WRITEBACK}
    requires valid && prev != NONE ==> id in m && m[id] == In(prev)
    ensures ReadAll(Alive(m), Moved(prev, valid, id, Before(to), to)) ==
            if valid && prev != NONE then
              if prev == to || prev == Before(to) then Alive(m[id := In(to)]) else Broken
            else Alive(m)
  {
    if prev != to && valid && prev != NONE {
      ReadTwo(Alive(m), End(id, Before(to)), Start(id, to));
      if prev == Before(to) {
        assert m[id := Left(Before(to))][id := In(to)] == m[id := In(to)];
      }
    } else if valid && prev != NONE {
      assert m[id := In(to)] == m;
    }
  }

  lemma FetchedReads(m: map<int, Life>, prev: Stage, id: int)
    requires if prev == NONE then id !in m else id in m && m[id] == In(prev)
    ensures ReadAll(Alive(m), Fetched(prev, id)) ==
            if prev == FETCH || prev == NONE then Alive(m[id := In(FETCH)]) else Broken
  {
    if prev != FETCH {
      ReadTwo(Alive(m), Introduce(id), Start(id, FETCH));
      assert m[id := Introduced][id := In(FETCH)] == m[id := In(FETCH)];
    } else {
      assert m[id := In(FETCH)] == m;
    }
  }

  lemma CommittedReads(m: map<int, Life>, prev: Stage, valid: bool, id: int)
    requires prev != COMMIT
    requires valid && prev != NONE ==> id in m && m[id] == In(prev)
    ensures ReadAll(Alive(m), Committed(prev, valid, id)) ==
            if valid && prev != NONE then if prev == WRITEBACK then Alive(m - {id}) else Broken else Alive(m)
  {
    if valid && prev != NONE {
      ReadTwo(Alive(m), End(id, WRITEBACK), Retire(id, false));
      if prev == WRITEBACK {
        assert m[id := Left(WRITEBACK)] - {id} == m - {id};
      }
    }
  }

  /** m with the instruction of an acting port moved to the port's stage. */
  function Placed(m: map<int, Life>, acts: bool, id: int, stage: Stage): map<int, Life> {
    if acts then m[id := In(stage)] else m
  }

  function Acts(r: Record, valid: bool, id: int): bool { valid && Recorded(r, id) != NONE }

  /** What a call leaves alive, going through the ports from fetch to commit. */
  function PlacedAll(m: map<int, Life>, r: Record, p: Ports): map<int, Life> {
    var m1 := m[p.fetch := In(FETCH)];
    var m2 := Placed(m1, Acts(r, p.validDecode, p.decode), p.decode, DECODE);
    var m3 := Placed(m2, Acts(r, p.validExecute, p.execute), p.execute, EXECUTE);
    var m4 := Placed(m3, Acts(r, p.validMemory, p.memory), p.memory, MEMORY);
    var m5 := Placed(m4, Acts(r, p.validWriteback, p.writeback), p.writeback, WRITEBACK);
    if Acts(r, p.validCommit, p.commit) then m5 - {p.commit} else m5
  }

  lemma NoteOpens(r: Record, m: map<int, Life>, prev: Stage, valid: bool, id: int, stage: Stage)
    requires stage != NONE && Open(r) == Alive(m) && (prev == NONE ==> Recorded(r, id) == NONE)
    ensures Open(Note(r, prev, valid, id, stage)) == Alive(Placed(m, valid && prev != NONE, id, stage))
  {
    assert Open(Note(r, prev, valid, id, stage)).m == Placed(m, valid && prev != NONE, id, stage);
  }

  lemma NoteLeaves(r: Record, prev: Stage, valid: bool, id: int, stage: Stage, other: int)
    requires id == other ==> !valid || prev == NONE
    requires Recorded(r, other) == NONE
    ensures Recorded(Note(r, prev, valid, id, stage), other) == NONE
  {
  }

  /** An instruction not recorded when the call begins, and shown at a later port, is not recorded
      after fetch either. */
  lemma FetchLeaves(r: Record, p: Ports, r0: Record, m: map<int, Life>, id: int)
    requires r0 == if Commits(Recorded(r, p.commit), p.validCommit) then r - {p.commit} else r
    requires NoClash(r, p) && id in {p.decode, p.execute, p.memory, p.writeback}
    requires Recorded(r, id) == NONE
    ensures Recorded(r0[p.fetch := FETCH], id) == NONE
  {
  }

  lemma FetchOpens(r: Record, m: map<int, Life>, id: int)
    requires Open(r) == Alive(m)
    ensures Open(r[id := FETCH]) == Alive(m[id := In(FETCH)])
  {
    assert Open(r[id := FETCH]).m == m[id := In(FETCH)];
  }

  /** Noted, one port at a time. */
  lemma NotedSteps(r: Record, p: Ports, r0: Record, m: map<int, Life>)
    requires NoClash(r, p) && Open(r0) == Alive(m)
    requires r0 == if Commits(Recorded(r, p.commit), p.validCommit) then r - {p.commit} else r
    ensures Open(Noted(r, p)) == Alive(
      Placed(Placed(Placed(Placed(m[p.fetch := In(FETCH)],
        Acts(r, p.validDecode, p.decode), p.decode, DECODE), Acts(r, p.validExecute, p.execute), p.execute, EXECUTE),
        Acts(r, p.validMemory, p.memory), p.memory, MEMORY), Acts(r, p.validWriteback, p.writeback), p.writeback,
            WRITEBACK))
  {
    hide Open, Note, Placed, NoClash, ActingApart, Commits, Recorded;
    var d, x, y, w := Recorded(r, p.decode), Recorded(r, p.execute), Recorded(r, p.memory), Recorded(r, p.writeback);
    var r1, m1 := r0[p.fetch := FETCH], m[p.fetch := In(FETCH)];
    FetchOpens(r0, m, p.fetch);
    if d == NONE { FetchLeaves(r, p, r0, m, p.decode); }
    if x == NONE { FetchLeaves(r, p, r0, m, p.execute); }
    if y == NONE { FetchLeaves(r, p, r0, m, p.memory); }
    if w == NONE { FetchLeaves(r, p, r0, m, p.writeback); }
    NotesOpen(p, r1, m1, d, x, y, w);
  }

  lemma NotesOpen(p: Ports, r1: Record, m1: map<int, Life>, d: Stage, x: Stage, y: Stage, w: Stage)
    requires Open(r1) == Alive(m1)
    requires d == NONE ==> Recorded(r1, p.decode) == NONE
    requires x == NONE ==> Recorded(r1, p.execute) == NONE && (p.decode == p.execute ==> d == NONE)
    requires y == NONE ==> Recorded(r1, p.memory) == NONE && (p.decode == p.memory ==> d == NONE)
                           && (p.execute == p.memory ==> x == NONE)
    requires w == NONE ==> Recorded(r1, p.writeback) == NONE && (p.decode == p.writeback ==> d == NONE)
                           && (p.execute == p.writeback ==> x == NONE) && (p.memory == p.writeback ==> y == NONE)
    ensures Open(Note(Note(Note(Note(r1,
              d, p.validDecode, p.decode, DECODE), x, p.validExecute, p.execute, EXECUTE),
              y, p.validMemory, p.memory, MEMORY), w, p.validWriteback, p.writeback, WRITEBACK)) ==
            Alive(Placed(Placed(Placed(Placed(m1,
              p.validDecode && d != NONE, p.decode, DECODE), p.validExecute && x != NONE, p.execute, EXECUTE),
              p.validMemory && y != NONE, p.memory, MEMORY), p.validWriteback && w != NONE, p.writeback, WRITEBACK))
  {
    hide Open, Note, Placed, Recorded;
    var r2, m2 := Note(r1, d, p.validDecode, p.decode, DECODE),
        Placed(m1, p.validDecode && d != NONE, p.decode, DECODE);
    NoteOpens(r1, m1, d, p.validDecode, p.decode, DECODE);
    var r3, m3 := Note(r2, x, p.validExecute, p.execute, EXECUTE),
        Placed(m2, p.validExecute && x != NONE, p.execute, EXECUTE);
    if x == NONE { NoteLeaves(r1, d, p.validDecode, p.decode, DECODE, p.execute); }
    NoteOpens(r2, m2, x, p.validExecute, p.execute, EXECUTE);
    var r4, m4 := Note(r3, y, p.validMemory, p.memory, MEMORY),
        Placed(m3, p.validMemory && y != NONE, p.memory, MEMORY);
    if y == NONE {
      NoteLeaves(r1, d, p.validDecode, p.decode, DECODE, p.memory);
      NoteLeaves(r2, x, p.validExecute, p.execute, EXECUTE, p.memory);
    }
    NoteOpens(r3, m3, y, p.validMemory, p.memory, MEMORY);
    if w == NONE {
      NoteLeaves(r1, d, p.validDecode, p.decode, DECODE, p.writeback);
      NoteLeaves(r2, x, p.validExecute, p.execute, EXECUTE, p.writeback);
      NoteLeaves(r3, y, p.validMemory, p.memory, MEMORY, p.writeback);
    }
    NoteOpens(r4, m4, w, p.validWriteback, p.writeback, WRITEBACK);
  }

  lemma PlacedApart(m: map<int, Life>, acts: bool, id: int, stage: Stage, other: int)
    requires acts ==> id != other
    ensures Placed(m - {other}, acts, id, stage) == Placed(m, acts, id, stage) - {other}
  {
  }

  /** Retiring the committing instruction first or last leaves the same instructions alive. */
  lemma CommitFirst(m: map<int, Life>, r: Record, p: Ports)
    requires ActingApart(r, p) && Acts(r, p.validCommit, p.commit)
    ensures PlacedAll(m, r, p) ==
      Placed(Placed(Placed(Placed((m - {p.commit})[p.fetch := In(FETCH)],
        Acts(r, p.validDecode, p.decode), p.decode, DECODE), Acts(r, p.validExecute, p.execute), p.execute, EXECUTE),
        Acts(r, p.validMemory, p.memory), p.memory, MEMORY), Acts(r, p.validWriteback, p.writeback), p.writeback,
            WRITEBACK)
  {
    var m1 := m[p.fetch := In(FETCH)];
    assert (m - {p.commit})[p.fetch := In(FETCH)] == m1 - {p.commit};
    hide Placed;
    var m2 := Placed(m1, Acts(r, p.validDecode, p.decode), p.decode, DECODE);
    var m3 := Placed(m2, Acts(r, p.validExecute, p.execute), p.execute, EXECUTE);
    var m4 := Placed(m3, Acts(r, p.validMemory, p.memory), p.memory, MEMORY);
    PlacedApart(m1, Acts(r, p.validDecode, p.decode), p.decode, DECODE, p.commit);
    PlacedApart(m2, Acts(r, p.validExecute, p.execute), p.execute, EXECUTE, p.commit);
    PlacedApart(m3, Acts(r, p.validMemory, p.memory), p.memory, MEMORY, p.commit);
    PlacedApart(m4, Acts(r, p.validWriteback, p.writeback), p.writeback, WRITEBACK, p.commit);
  }

  lemma CommitOpens(r: Record, id: int)
    ensures Open(r - {id}) == Alive(Open(r).m - {id})
  {
    assert Open(r - {id}).m == Open(r).m - {id};
  }

  /** The record and a reading that matched before the call match after it. */
  lemma NotedIsPlaced(r: Record, p: Ports)
    requires NoCommit(r) && NoClash(r, p)
    ensures Open(Noted(r, p)) == Alive(PlacedAll(Open(r).m, r, p))
  {
    assert Recorded(r, p.commit) != COMMIT;
    hide Open, Noted, ActingApart, FetchedAlone, Recorded, Placed;
    if Acts(r, p.validCommit, p.commit) {
      CommitOpens(r, p.commit);
      NotedSteps(r, p, r - {p.commit}, Open(r).m - {p.commit});
      CommitFirst(Open(r).m, r, p);
    } else {
      NotedSteps(r, p, r, Open(r).m);
    }
  }

  function Readable(ok: bool, m: map<int, Life>): Reading { if ok then Alive(m) else Broken }

  /** Reading the lines of one port, in a sequence of ports: an instruction out of order breaks the
      trace for good. */
  lemma PortReads(r: Record, before: Reading, ok: bool, m: map<int, Life>, valid: bool, id: int, to: Stage)
    requires to in {DECODE, EXECUTE, MEMORY, WRITEBACK}
    requires before == Readable(ok, m)
    requires Acts(r, valid, id) ==> id in m && m[id] == In(Recorded(r, id))
    ensures ReadAll(before, Moved(Recorded(r, id), valid, id, Before(to), to))
         == Readable(ok && PortOk(r, valid, id, to), Placed(m, Acts(r, valid, id), id, to))
  {
    var lines := Moved(Recorded(r, id), valid, id, Before(to), to);
    if ok {
      MovedReads(m, Recorded(r, id), valid, id, to);
    } else {
      BrokenStays(lines);
    }
  }

  lemma CommitReads(r: Record, before: Reading, ok: bool, m: map<int, Life>, valid: bool, id: int)
    requires NoCommit(r)
    requires before == Readable(ok, m)
    requires Acts(r, valid, id) ==> id in m && m[id] == In(Recorded(r, id))
    ensures ReadAll(before, Committed(Recorded(r, id), valid, id))
         == Readable(ok && PortOk(r, valid, id, COMMIT), if Acts(r, valid, id) then m - {id} else m)
  {
    var lines := Committed(Recorded(r, id), valid, id);
    if ok {
      CommittedReads(m, Recorded(r, id), valid, id);
    } else {
      BrokenStays(lines);
    }
  }

  lemma LabelReads(before: Reading, prev: Stage, valid: bool, id: int, pc: int, instr: int)
    ensures ReadAll(before, Labelled(prev, valid, id, pc, instr)) == before
  {
  }

  lemma FetchPortReads(r: Record, m: map<int, Life>, id: int)
    requires if Recorded(r, id) == NONE then id !in m else id in m && m[id] == In(Recorded(r, id))
    ensures ReadAll(Alive(m), Fetched(Recorded(r, id), id))
         == Readable(Recorded(r, id) == FETCH || Recorded(r, id) == NONE, m[id := In(FETCH)])
  {
    FetchedReads(m, Recorded(r, id), id);
  }

  lemma FrontReads(r: Record, p: Ports, m0: map<int, Life>, m1: map<int, Life>, l1: seq<Event>, l2: seq<Event>,
                   l2': seq<Event>)
    requires if Recorded(r, p.fetch) == NONE then p.fetch !in m0
        else p.fetch in m0 && m0[p.fetch] == In(Recorded(r, p.fetch))
    requires m1 == m0[p.fetch := In(FETCH)]
    requires Acts(r, p.validDecode, p.decode) ==> p.decode in m1 && m1[p.decode] == In(Recorded(r, p.decode))
    requires l1 == Fetched(Recorded(r, p.fetch), p.fetch)
    requires l2 == Moved(Recorded(r, p.decode), p.validDecode, p.decode, FETCH, DECODE)
    requires l2' == Labelled(Recorded(r, p.decode), p.validDecode, p.decode, p.pc, p.instr)
    ensures ReadAll(ReadAll(ReadAll(Alive(m0), l1), l2), l2') ==
            Readable((Recorded(r, p.fetch) == FETCH || Recorded(r, p.fetch) == NONE)
                     && PortOk(r, p.validDecode, p.decode, DECODE),
                     Placed(m1, Acts(r, p.validDecode, p.decode), p.decode, DECODE))
  {
    hide Moved, Fetched, Labelled, Placed, Recorded, ReadAll, PortOk, Acts, Readable;
    FetchPortReads(r, m0, p.fetch);
    var ok1 := Recorded(r, p.fetch) == FETCH || Recorded(r, p.fetch) == NONE;
    PortReads(r, ReadAll(Alive(m0), l1), ok1, m1, p.validDecode, p.decode, DECODE);
    LabelReads(ReadAll(ReadAll(Alive(m0), l1), l2), Recorded(r, p.decode), p.validDecode, p.decode, p.pc, p.instr);
  }

  lemma RearReads(
    r: Record, p: Ports, before: Reading, ok: bool, m2: map<int, Life>,
    l3: seq<Event>, l4: seq<Event>, l5: seq<Event>, l6: seq<Event>, m3: map<int, Life>, m4: map<int, Life>,
    m5: map<int, Life>)
    requires NoCommit(r) && before == Readable(ok, m2)
    requires m3 == Placed(m2, Acts(r, p.validExecute, p.execute), p.execute, EXECUTE)
    requires m4 == Placed(m3, Acts(r, p.validMemory, p.memory), p.memory, MEMORY)
    requires m5 == Placed(m4, Acts(r, p.validWriteback, p.writeback), p.writeback, WRITEBACK)
    requires Acts(r, p.validExecute, p.execute) ==> p.execute in m2 && m2[p.execute] == In(Recorded(r, p.execute))
    requires Acts(r, p.validMemory, p.memory) ==> p.memory in m3 && m3[p.memory] == In(Recorded(r, p.memory))
    requires Acts(r, p.validWriteback, p.writeback) ==>
               p.writeback in m4 && m4[p.writeback] == In(Recorded(r, p.writeback))
    requires Acts(r, p.validCommit, p.commit) ==> p.commit in m5 && m5[p.commit] == In(Recorded(r, p.commit))
    requires l3 == Moved(Recorded(r, p.execute), p.validExecute, p.execute, DECODE, EXECUTE)
    requires l4 == Moved(Recorded(r, p.memory), p.validMemory, p.memory, EXECUTE, MEMORY)
    requires l5 == Moved(Recorded(r, p.writeback), p.validWriteback, p.writeback, MEMORY, WRITEBACK)
    requires l6 == Committed(Recorded(r, p.commit), p.validCommit, p.commit)
    ensures ReadAll(ReadAll(ReadAll(ReadAll(before, l3), l4), l5), l6) ==
            Readable(ok && PortOk(r, p.validExecute, p.execute, EXECUTE) && PortOk(r, p.validMemory, p.memory, MEMORY)
                     && PortOk(r, p.validWriteback, p.writeback, WRITEBACK)
                         && PortOk(r, p.validCommit, p.commit, COMMIT),
                     if Acts(r, p.validCommit, p.commit) then m5 - {p.commit} else m5)
  {
    hide Moved, Committed, Placed, Recorded, ReadAll, NoCommit, PortOk, Acts, Readable;
    PortReads(r, before, ok, m2, p.validExecute, p.execute, EXECUTE);
    var ok3 := ok && PortOk(r, p.validExecute, p.execute, EXECUTE);
    var r3 := ReadAll(before, l3);
    PortReads(r, r3, ok3, m3, p.validMemory, p.memory, MEMORY);
    var ok4 := ok3 && PortOk(r, p.validMemory, p.memory, MEMORY);
    var r4 := ReadAll(r3, l4);
    PortReads(r, r4, ok4, m4, p.validWriteback, p.writeback, WRITEBACK);
    var ok5 := ok4 && PortOk(r, p.validWriteback, p.writeback, WRITEBACK);
    CommitReads(r, ReadAll(r4, l5), ok5, m5, p.validCommit, p.commit);
  }

  lemma LinesReadAsPlaced(r: Record, p: Ports)
    requires NoCommit(r) && ActingApart(r, p)
    ensures ReadAll(Open(r), Lines(r, p)) == Readable(InOrder(r, p), PlacedAll(Open(r).m, r, p))
  {
    hide Moved, Fetched, Labelled, Committed, ActingApart, Placed, Recorded, ReadAll, NoCommit, PortOk, Acts, Readable;
    PlacesKept(r, p);
    var m0 := Open(r).m;
    hide Open;
    var m1 := m0[p.fetch := In(FETCH)];
    var m2 := Placed(m1, Acts(r, p.validDecode, p.decode), p.decode, DECODE);
    var m3 := Placed(m2, Acts(r, p.validExecute, p.execute), p.execute, EXECUTE);
    var m4 := Placed(m3, Acts(r, p.validMemory, p.memory), p.memory, MEMORY);
    var m5 := Placed(m4, Acts(r, p.validWriteback, p.writeback), p.writeback, WRITEBACK);
    var l1 := Fetched(Recorded(r, p.fetch), p.fetch);
    var l2 := Moved(Recorded(r, p.decode), p.validDecode, p.decode, FETCH, DECODE);
    var l2' := Labelled(Recorded(r, p.decode), p.validDecode, p.decode, p.pc, p.instr);
    var l3 := Moved(Recorded(r, p.execute), p.validExecute, p.execute, DECODE, EXECUTE);
    var l4 := Moved(Recorded(r, p.memory), p.validMemory, p.memory, EXECUTE, MEMORY);
    var l5 := Moved(Recorded(r, p.writeback), p.validWriteback, p.writeback, MEMORY, WRITEBACK);
    var l6 := Committed(Recorded(r, p.commit), p.validCommit, p.commit);
    FrontReads(r, p, m0, m1, l1, l2, l2');
    var r2 := ReadAll(ReadAll(ReadAll(Alive(m0), l1), l2), l2');
    var ok := (Recorded(r, p.fetch) == FETCH || Recorded(r, p.fetch) == NONE)
        && PortOk(r, p.validDecode, p.decode, DECODE);
    RearReads(r, p, r2, ok, m2, l3, l4, l5, l6, m3, m4, m5);
    ReadSeven(Alive(m0), l1, l2, l2', l3, l4, l5, l6);
  }

  /** One call without flush keeps reading and record together exactly when the instructions move in
      order; otherwise the trace no longer reads. */
  lemma LinesRead(r: Record, p: Ports)
    requires NoCommit(r) && NoClash(r, p)
    ensures ReadAll(Open(r), Lines(r, p)) == if InOrder(r, p) then Open(Noted(r, p)) else Broken
    ensures NoCommit(Noted(r, p))
  {
    hide Noted, ActingApart, FetchedAlone, PlacedAll, Open, ReadAll, Lines, InOrder;
    NotedIsPlaced(r, p);
    LinesReadAsPlaced(r, p);
    NotedNoCommit(r, p);
  }

  lemma NotedNoCommit(r: Record, p: Ports)
    requires NoCommit(r)
    ensures NoCommit(Noted(r, p))
  {
  }

  /** When its turn comes, an acting port still finds its instruction where the record says. */
  lemma PlacesKept(r: Record, p: Ports)
    requires ActingApart(r, p)
    ensures
      var m0 := Open(r).m;
      var m1 := m0[p.fetch := In(FETCH)];
      var m2 := Placed(m1, Acts(r, p.validDecode, p.decode), p.decode, DECODE);
      var m3 := Placed(m2, Acts(r, p.validExecute, p.execute), p.execute, EXECUTE);
      var m4 := Placed(m3, Acts(r, p.validMemory, p.memory), p.memory, MEMORY);
      var m5 := Placed(m4, Acts(r, p.validWriteback, p.writeback), p.writeback, WRITEBACK);
      && (if Recorded(r, p.fetch) == NONE then p.fetch !in m0
          else p.fetch in m0 && m0[p.fetch] == In(Recorded(r, p.fetch)))
      && (Acts(r, p.validDecode, p.decode) ==> p.decode in m1 && m1[p.decode] == In(Recorded(r, p.decode)))
      && (Acts(r, p.validExecute, p.execute) ==> p.execute in m2 && m2[p.execute] == In(Recorded(r, p.execute)))
      && (Acts(r, p.validMemory, p.memory) ==> p.memory in m3 && m3[p.memory] == In(Recorded(r, p.memory)))
      && (Acts(r, p.validWriteback, p.writeback) ==>
            p.writeback in m4 && m4[p.writeback] == In(Recorded(r, p.writeback)))
      && (Acts(r, p.validCommit, p.commit) ==> p.commit in m5 && m5[p.commit] == In(Recorded(r, p.commit)))
  {
  }

  // ---------- a flush ----------

  /** A flush closes every instruction with the letter of its own stage, and leaves none alive. */
  lemma {:induction false} FlushReads(r: Record, ids: set<int>, m: map<int, Life>, commit: int)
    requires ids <= r.Keys && NoCommit(r) && m.Keys <= ids
    requires forall id :: id in ids ==> if r[id] == NONE then id !in m else id in m && m[id] == In(r[id])
    ensures ReadAll(Alive(m), AllFlushLines(r, ids, commit)) == Alive(map[])
    decreases |ids|
  {
    if ids == {} {
      assert m == map[];
    } else {
      LeastExists(ids);
      var id :| IsLeast(id, ids) && AllFlushLines(r, ids, commit) == FlushLines(id, r[id], commit)
          + AllFlushLines(r, ids - {id}, commit);
      OneFlushed(m, id, r[id], commit);
      ReadBoth(Alive(m), FlushLines(id, r[id], commit), AllFlushLines(r, ids - {id}, commit));
      FlushReads(r, ids - {id}, m - {id}, commit);
    }
  }

  lemma OneFlushed(m: map<int, Life>, id: int, stage: Stage, commit: int)
    requires stage != COMMIT
    requires if stage == NONE then id !in m else id in m && m[id] == In(stage)
    ensures ReadAll(Alive(m), FlushLines(id, stage, commit)) == Alive(m - {id})
  {
    if stage == NONE {
      assert ReadAll(Alive(m), [Retire(id, true)]) == ReadAll(Read(Alive(m), Retire(id, true)), []);
    } else {
      var flushed := !(stage == WRITEBACK && id == commit);
      ReadTwo(Alive(m), End(id, stage), Retire(id, flushed));
      assert m[id := Left(stage)] - {id} == m - {id};
    }
  }

  /** Which lines a flush prints: every recorded id retires, as flushed unless it sits in writeback
      and is the one committing; and every id in a stage ends that stage. */
  lemma {:induction false} FlushPrints(r: Record, ids: set<int>, commit: int, e: Event)
    requires ids <= r.Keys && NoCommit(r)
    ensures e in AllFlushLines(r, ids, commit) <==>
            || (e.Retire? && e.id in ids && e.flushed == !(r[e.id] == WRITEBACK && e.id == commit))
            || (e.End? && e.id in ids && r[e.id] != NONE && e.stage == r[e.id])
    decreases |ids|
  {
    if ids != {} {
      LeastExists(ids);
      var id :| IsLeast(id, ids) && AllFlushLines(r, ids, commit) == FlushLines(id, r[id], commit)
          + AllFlushLines(r, ids - {id}, commit);
      FlushPrints(r, ids - {id}, commit, e);
    }
  }

  // ---------- whole runs ----------

  lemma CallReads(r: Record, p: Ports)
    requires NoCommit(r) && (p.flush || NoClash(r, p))
    ensures ReadAll(Open(r), CallLines(r, p)) == if p.flush || InOrder(r, p) then Open(After(r, p)) else Broken
    ensures NoCommit(After(r, p))
  {
    var lines := if p.flush then AllFlushLines(r, r.Keys, p.commit) else Lines(r, p);
    assert ([Cycle] + lines)[1..] == lines;
    assert Read(Open(r), Cycle) == Open(r);
    if p.flush {
      FlushReads(r, r.Keys, Open(r).m, p.commit);
      assert Open(map[]) == Alive(map[]);
    } else {
      LinesRead(r, p);
    }
  }

  /** The record and the trace after a list of calls. */
  function RecordAfter(calls: seq<Ports>): Record
    decreases |calls|
  {
    if calls == [] then map[] else After(RecordAfter(calls[..|calls| - 1]), calls[|calls| - 1])
  }

  ghost function Trace(calls: seq<Ports>): seq<Event>
    decreases |calls|
  {
    if calls == [] then [Header]
    else
      var earlier := calls[..|calls| - 1];
      Trace(earlier) + CallLines(RecordAfter(earlier), calls[|calls| - 1])
  }

  /** Every call that does not flush keeps its ports apart. */
  predicate PortsApart(calls: seq<Ports>) {
    forall k :: 0 <= k < |calls| ==> calls[k].flush || NoClash(RecordAfter(calls[..k]), calls[k])
  }

  /** Every call that does not flush moves its instructions in order. */
  predicate AllInOrder(calls: seq<Ports>) {
    forall k :: 0 <= k < |calls| ==> calls[k].flush || InOrder(RecordAfter(calls[..k]), calls[k])
  }

  lemma LastCall(calls: seq<Ports>)
    requires calls != []
    ensures
      var earlier, p := calls[..|calls| - 1], calls[|calls| - 1];
      && (PortsApart(calls) <==> PortsApart(earlier) && (p.flush || NoClash(RecordAfter(earlier), p)))
      && (AllInOrder(calls) <==> AllInOrder(earlier) && (p.flush || InOrder(RecordAfter(earlier), p)))
  {
    hide NoClash, InOrder, RecordAfter;
    var n := |calls| - 1;
    var earlier := calls[..n];
    assert forall k :: 0 <= k < n ==> earlier[..k] == calls[..k];
    assert forall k :: 0 <= k < n ==> earlier[k] == calls[k];
  }

  /** Over every run: the trace reads as a well-bracketed pipeline trace exactly when all calls move
      instructions in order, and then the instructions it leaves open are the recorded ones, each in
      its recorded stage. */
  lemma {:induction false} EveryRun(calls: seq<Ports>)
    requires PortsApart(calls)
    ensures NoCommit(RecordAfter(calls))
    ensures ReadAll(Alive(map[]), Trace(calls)) == if AllInOrder(calls) then Open(RecordAfter(calls)) else Broken
    decreases |calls|
  {
    if calls == [] {
      assert Read(Alive(map[]), Header) == Alive(map[]);
      assert ReadAll(Alive(map[]), [Header]) == ReadAll(Read(Alive(map[]), Header), []);
    } else {
      var n := |calls| - 1;
      var earlier, p := calls[..n], calls[n];
      LastCall(calls);
      hide NoClash, InOrder, ReadAll, CallLines, After, Open, NoCommit, PortsApart, AllInOrder;
      EveryRun(earlier);
      CallReads(RecordAfter(earlier), p);
      BrokenStays(CallLines(RecordAfter(earlier), p));
      ReadBoth(Alive(map[]), Trace(earlier), CallLines(RecordAfter(earlier), p));
    }
  }

  /** Ports that all name different instructions never clash. */
  lemma DistinctPortsApart(r: Record, p: Ports)
    requires |multiset{p.fetch, p.decode, p.execute, p.memory, p.writeback, p.commit}|
        == |{p.fetch, p.decode, p.execute, p.memory, p.writeback, p.commit}|
    ensures NoClash(r, p)
  {
  }

  /** An instruction that is fetched for the first time is forgotten by the record in the same call
      exactly when its id is also at decode, execute, memory or writeback, even at a port that is not
      valid. */
  lemma ForgottenIff(r: Record, p: Ports)
    requires Recorded(r, p.fetch) == NONE
    ensures Recorded(Noted(r, p), p.fetch) == NONE <==> p.fetch in {p.decode, p.execute, p.memory, p.writeback}
  {
  }

  /** The trace, meanwhile, has opened it. */
  lemma FetchedIsOpen(r: Record, p: Ports)
    requires NoCommit(r) && ActingApart(r, p) && InOrder(r, p)
    ensures var s := ReadAll(Open(r), Lines(r, p)); s.Alive? && p.fetch in s.m && s.m[p.fetch] == In(FETCH)
  {
    LinesReadAsPlaced(r, p);
    hide Lines, ReadAll, NoCommit, InOrder, Open;
  }

  /** With the acting ports apart, one call keeps trace and record together exactly when the
      instructions move in order and a newly fetched one is at no other port. */
  lemma AgreeIff(r: Record, p: Ports)
    requires NoCommit(r) && ActingApart(r, p)
    ensures ReadAll(Open(r), Lines(r, p)) == Open(Noted(r, p)) <==> InOrder(r, p) && FetchedAlone(r, p)
  {
    hide Noted, ActingApart, PlacedAll, Lines, InOrder, ReadAll;
    if !InOrder(r, p) {
      LinesReadAsPlaced(r, p);
    } else if FetchedAlone(r, p) {
      LinesRead(r, p);
    } else {
      ForgottenIff(r, p);
      FetchedIsOpen(r, p);
    }
  }

  /** Every call that does not flush keeps its acting ports apart. */
  predicate AllActApart(calls: seq<Ports>) {
    forall k :: 0 <= k < |calls| ==> calls[k].flush || ActingApart(RecordAfter(calls[..k]), calls[k])
  }

  predicate CallFits(r: Record, p: Ports) { p.flush || (InOrder(r, p) && FetchedAlone(r, p)) }

  /** Every call that does not flush moves its instructions in order and fetches a new one alone. */
  predicate AllFit(calls: seq<Ports>) {
    forall k :: 0 <= k < |calls| ==> CallFits(RecordAfter(calls[..k]), calls[k])
  }

  /** The trace of the first k calls leaves open what is recorded then, each in its stage. */
  ghost predicate Agrees(calls: seq<Ports>, k: nat)
    requires k <= |calls|
  {
    ReadAll(Alive(map[]), Trace(calls[..k])) == Open(RecordAfter(calls[..k]))
  }

  ghost predicate AlwaysAgrees(calls: seq<Ports>) { forall k: nat :: k <= |calls| ==> Agrees(calls, k) }

  lemma LastFits(calls: seq<Ports>)
    requires calls != []
    ensures
      var earlier, p := calls[..|calls| - 1], calls[|calls| - 1];
      && (AllActApart(calls) ==> AllActApart(earlier) && (p.flush || ActingApart(RecordAfter(earlier), p)))
      && (AllFit(calls) <==> AllFit(earlier) && CallFits(RecordAfter(earlier), p))
      && (AlwaysAgrees(calls) <==> AlwaysAgrees(earlier) && Agrees(calls, |calls|))
  {
    hide ActingApart, CallFits, RecordAfter, Trace, Open, ReadAll;
    var n := |calls| - 1;
    var earlier := calls[..n];
    assert forall k :: 0 <= k < n ==> earlier[..k] == calls[..k] && earlier[k] == calls[k];
    assert forall k: nat :: k <= n ==> earlier[..k] == calls[..k];
    forall k: nat | k <= n
      ensures Agrees(calls, k) <==> Agrees(earlier, k)
    {
      assert earlier[..k] == calls[..k];
    }
  }

  lemma CallAgreesIff(r: Record, p: Ports)
    requires NoCommit(r) && (p.flush || ActingApart(r, p))
    ensures ReadAll(Open(r), CallLines(r, p)) == Open(After(r, p)) <==> CallFits(r, p)
    ensures NoCommit(After(r, p))
  {
    if p.flush {
      CallReads(r, p);
    } else {
      var lines := Lines(r, p);
      assert ([Cycle] + lines)[1..] == lines;
      assert Read(Open(r), Cycle) == Open(r);
      AgreeIff(r, p);
      NotedNoCommit(r, p);
    }
  }

  lemma NothingAgrees(calls: seq<Ports>)
    requires calls == []
    ensures AlwaysAgrees(calls)
  {
    assert Read(Alive(map[]), Header) == Alive(map[]);
    assert ReadAll(Alive(map[]), [Header]) == ReadAll(Read(Alive(map[]), Header), []);
    assert calls[..0] == [];
  }

  /** One more call. */
  lemma LastAgrees(calls: seq<Ports>)
    requires calls != [] && AllActApart(calls) && NoCommit(RecordAfter(calls[..|calls| - 1]))
    requires Agrees(calls[..|calls| - 1], |calls| - 1)
    ensures Agrees(calls, |calls|) <==> CallFits(RecordAfter(calls[..|calls| - 1]), calls[|calls| - 1])
  {
    hide ReadAll, CallLines, After, Open, NoCommit, AllActApart, AllFit, AlwaysAgrees, CallFits, ActingApart;
    var n := |calls| - 1;
    var earlier, p := calls[..n], calls[n];
    LastFits(calls);
    CallAgreesIff(RecordAfter(earlier), p);
    ReadBoth(Alive(map[]), Trace(earlier), CallLines(RecordAfter(earlier), p));
    assert calls[..n + 1] == calls && earlier[..n] == earlier;
  }

  lemma {:induction false} NoCommitAfter(calls: seq<Ports>)
    ensures NoCommit(RecordAfter(calls))
    decreases |calls|
  {
    if calls != [] {
      var n := |calls| - 1;
      hide Noted;
      NoCommitAfter(calls[..n]);
      NotedNoCommit(RecordAfter(calls[..n]), calls[n]);
    }
  }

  /** Over every run whose acting ports are apart: trace and record agree after every call exactly when
      every call that does not flush moves its instructions in order and fetches new ones alone. */
  lemma {:induction false} EveryPrefixAgreesIff(calls: seq<Ports>)
    requires AllActApart(calls)
    ensures AlwaysAgrees(calls) <==> AllFit(calls)
    decreases |calls|
  {
    if calls == [] {
      NothingAgrees(calls);
    } else {
      var n := |calls| - 1;
      LastFits(calls);
      NoCommitAfter(calls[..n]);
      hide RecordAfter, Agrees, NoCommit, AllActApart, AllFit, CallFits, ActingApart;
      EveryPrefixAgreesIff(calls[..n]);
      if AlwaysAgrees(calls[..n]) {
        LastAgrees(calls);
      }
    }
  }

  /** It does fail: in a first call in which all ports still show the id 0 and none is valid, the trace
      opens instruction 0 and the record forgets it. */
  lemma FirstCallForgets(p: Ports)
    requires p == Ports(false, false, false, false, false, 0, 0, 0, 0, 0, 0, 0, 0, false)
    ensures AllActApart([p]) && !AlwaysAgrees([p])
    ensures Recorded(RecordAfter([p]), 0) == NONE
  {
    assert [p][..0] == [];
    assert RecordAfter([p]) == Noted(map[], p);
    EveryPrefixAgreesIff([p]);
    assert !FetchedAlone(RecordAfter([p][..0]), [p][0]);
    assert !CallFits(RecordAfter([p][..0]), [p][0]);
    ForgottenIff(map[], p);
  }
}
