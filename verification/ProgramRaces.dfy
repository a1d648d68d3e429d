/**
 Start, process and abort test for an active program before they take the lock. Runs in which other calls go through between the
 test and the lock of a call, and exactly when the trace survives them.
 */
module ProgramRaces {
  import opened Bytes
  import opened Common
  import opened RuntimeStates
  import opened Plants
  import opened ProgramOperations
  import opened ServiceRuns
  import opened Executions
  import opened RunHistory
  import ZoneOperations
  import MasterOperations

  // ----- Calls in two halves -----

  /** A call that passed its test and has not taken the lock yet. */
  datatype Pending = ToStart(program: Program, context: StartContext) | ToProcess | ToAbort

  datatype Racing = Racing(c: Controller, waiting: seq<Pending>)

  /** A call from test to end, the test of a call, a call that gets the lock, and one that finds it taken. */
  datatype Move = Whole(call: Call) | Test(pending: Pending) | Lock(index: nat) | GiveUp(index: nat)

  predicate TestPasses(c: Controller, pending: Pending) {
    match pending
    case ToStart(program, context) => program.steps != [] && ContextValid(context) && !Active(c)
    case _ => Active(c)
  }

  /** From the lock on; a controller that lost its step, where the source is undefined, stays. */
  function Locked(env: Environment, c: Controller, pending: Pending): Controller {
    match pending
    case ToStart(program, context) => StartLocked(env, c, program, context).0
    case ToProcess => if Consistent(c) then ProcessProgram(env, c).0 else c
    case ToAbort => if Consistent(c) then AbortLocked(env, c).0 else c
  }

  function Without(waiting: seq<Pending>, index: nat): seq<Pending>
    requires index < |waiting|
  {
    waiting[..index] + waiting[index + 1..]
  }

  function Next(env: Environment, r: Racing, move: Move): Racing {
    match move
    case Whole(call) => if Consistent(r.c) then r.(c := Serve(env, r.c, call)) else r
    case Test(pending) => if TestPasses(r.c, pending) then r.(waiting := r.waiting + [pending]) else r
    case Lock(i) =>
      if i < |r.waiting| then Racing(Locked(env, r.c, r.waiting[i]), Without(r.waiting, i)) else r
    case GiveUp(i) => if i < |r.waiting| then r.(waiting := Without(r.waiting, i)) else r
  }

  function Race(env: Environment, r: Racing, moves: seq<Move>): Racing {
    if moves == [] then r else Next(env, Race(env, r, moves[..|moves| - 1]), moves[|moves| - 1])
  }

  // ----- One lock -----

  /** What the lock must find for the trace to survive: visible at the moment the lock is taken. */
  predicate InOrder(c: Controller, pending: Pending) {
    match pending
    case ToStart(program, context) => !Active(c) || (c.program == Some(program) && c.context == context)
    case ToProcess => true
    case ToAbort => Active(c)
  }

  ghost predicate Traced(env: Environment, c: Controller) {
    exists l :: Recorded(env, c, l)
  }

  predicate Tested(pending: Pending) {
    pending.ToStart? ==> pending.program.steps != [] && ContextValid(pending.context)
  }

  function LastStarted(events: seq<Event>): Option<(Program, StartContext)> {
    if events == [] then None
    else
      var last := events[|events| - 1];
      if last.Started? then Some((last.program, last.context)) else LastStarted(events[..|events| - 1])
  }

  /** Started programs less ended ones. */
  function Balance(events: seq<Event>): int {
    if events == [] then 0
    else
      var last := events[|events| - 1];
      Balance(events[..|events| - 1]) + if last.Started? then 1 else if last.Terminated? then -1 else 0
  }

  lemma LastStartedPush(events: seq<Event>, event: Event)
    ensures LastStarted(events + [event]) == if event.Started? then Some((event.program, event.context)) else LastStarted(events)
    ensures Balance(events + [event]) == Balance(events) + if event.Started? then 1 else if event.Terminated? then -1 else 0
  {
    assert (events + [event])[..|events|] == events;
  }

  lemma {:induction false} StepsDoNotStart(before: seq<Event>, program: Program, steps: seq<(u64, u64)>)
    requires |steps| <= |program.steps|
    ensures LastStarted(before + RenderSteps(program, steps)) == LastStarted(before)
    ensures Balance(before + RenderSteps(program, steps)) == Balance(before)
    decreases |steps|
  {
    hide LastStarted, Balance;
    if steps == [] {
      assert before + [] == before;
    } else {
      var i := |steps| - 1;
      StepsDoNotStart(before, program, steps[..i]);
      var a := StepStarted(steps[i].0, i, program.steps[i].zone);
      var b := StepCompleted(steps[i].1, i, program.steps[i].zone);
      var earlier := before + RenderSteps(program, steps[..i]);
      LastStartedPush(earlier, a);
      LastStartedPush(earlier + [a], b);
      assert before + RenderSteps(program, steps) == earlier + [a] + [b];
    }
  }

  /** The trace tells which program was started last, and an execution ends at most once. */
  lemma RenderTells(before: seq<Event>, e: Execution)
    requires Proper(e)
    ensures LastStarted(before + Render(e)) == Some((e.program, e.context))
    ensures Balance(before + Render(e)) == Balance(before) + if e.end.Some? then 0 else 1
  {
    hide LastStarted, Balance, RenderSteps, PlannedDuration, ContextValid;
    var start := Started(e.startedAt, e.program, PlannedDuration(e.program), e.context);
    var steps := before + [start] + RenderSteps(e.program, e.steps);
    LastStartedPush(before, start);
    StepsDoNotStart(before + [start], e.program, e.steps);
    var running := if e.running.Some? then [StepStarted(e.running.value, |e.steps|, e.program.steps[|e.steps|].zone)] else [];
    if e.running.Some? { LastStartedPush(steps, running[0]); } else { assert steps + running == steps; }
    var end := if e.end.Some? then [Terminated(e.end.value.0, e.end.value.1)] else [];
    if e.end.Some? { LastStartedPush(steps + running, end[0]); } else { assert steps + running + end == steps + running; }
    assert before + Render(e) == steps + running + end;
  }

  lemma {:induction false} EndedBalance(done: seq<Execution>)
    requires Ended(done)
    ensures Balance(RenderAll(done)) == 0
  {
    hide Render, Proper;
    if done != [] {
      EndedBalance(done[..|done| - 1]);
      RenderTells(RenderAll(done[..|done| - 1]), done[|done| - 1]);
    }
  }

  /** What the events of a recorded controller say. */
  lemma TracedTells(env: Environment, c: Controller, l: Ledger)
    requires Recorded(env, c, l)
    ensures var events := ExecutionEvents(c.plant.events);
            && Balance(events) == (if Active(c) then 1 else 0)
            && (Active(c) ==> c.program.Some? && LastStarted(events) == Some((c.program.value, c.context)))
    ensures Consistent(c)
  {
    hide Render, RenderAll, ExecutionEvents, InTime, LongEnough, ContextValid, Balance, LastStarted;
    EndedBalance(l.done);
    if l.current.Some? { RenderTells(RenderAll(l.done), l.current.value); }
  }

  /** A start that finds a program active leaves the plant and puts its own program in the place of the running one. */
  lemma LateStart(env: Environment, c: Controller, program: Program, context: StartContext)
    requires Active(c) && !c.locks.programs
    ensures StartLocked(env, c, program, context) == (c.(program := Some(program), context := context), InvalidState)
  {
    hide MasterOperations.OpenMaster, PlannedDuration;
  }

  /** An abort that finds no program active publishes TERMINATED all the same. */
  lemma LateAbort(env: Environment, c: Controller)
    requires !Active(c) && !c.locks.programs
    ensures var d := AbortLocked(env, c).0;
            && !Active(d) && d.program == c.program && d.plant.events != []
            && ExecutionEvents(d.plant.events) == ExecutionEvents(c.plant.events) + [d.plant.events[|d.plant.events| - 1]]
            && d.plant.events[|d.plant.events| - 1].Terminated?
  {
    hide MasterOperations.CloseMaster, ZoneOperations.CloseZone, ExecutionEvents;
    var shut := if c.plant.store.master.state != MasterClosed then CallCloseMaster(env, Hold(c)).0 else Hold(c);
    var last := AbortLocked(env, c).0.plant.events;
    ExecutionEventsAppend(c.plant.events, last[|last| - 1]);
  }

  /** The lock keeps the trace a sequence of executions exactly when what it finds is in order. */
  lemma LockKeepsTrace(env: Environment, c: Controller, pending: Pending)
    requires Monotone(env) && Traced(env, c) && !c.locks.programs && Tested(pending)
    ensures Traced(env, Locked(env, c, pending)) <==> InOrder(c, pending)
    ensures Locked(env, c, pending).locks == c.locks
  {
    hide Recorded, StartLocked, AbortLocked, ProcessProgram, ExecutionEvents, ContextValid, Balance, LastStarted;
    var l :| Recorded(env, c, l);
    TracedTells(env, c, l);
    match pending {
      case ToStart(program, context) => LockedStart(env, c, l, program, context);
      case ToProcess => var m := ProcessMoves(env, c, l); ProcessConsistent(env, c);
      case ToAbort => LockedAbort(env, c, l);
    }
  }

  lemma LockedStart(env: Environment, c: Controller, l: Ledger, program: Program, context: StartContext)
    requires Monotone(env) && Recorded(env, c, l) && !c.locks.programs && program.steps != [] && ContextValid(context)
    ensures var d := StartLocked(env, c, program, context).0;
            d.locks == c.locks && (Traced(env, d) <==> InOrder(c, ToStart(program, context)))
  {
    hide Recorded, StartLocked, ExecutionEvents, ContextValid, Balance, LastStarted;
    TracedTells(env, c, l);
    var d := StartLocked(env, c, program, context).0;
    if Active(c) {
      LateStart(env, c, program, context);
      if m :| Recorded(env, d, m) { TracedTells(env, d, m); }
    } else {
      StartConsistent(env, c, program, context);
      var m := StartMoves(env, c, l, program, context);
      assert d == StartProgram(env, c, program, context).0;
    }
  }

  lemma LockedAbort(env: Environment, c: Controller, l: Ledger)
    requires Monotone(env) && Recorded(env, c, l) && Consistent(c) && !c.locks.programs
    ensures var d := AbortLocked(env, c).0; d.locks == c.locks && (Traced(env, d) <==> Active(c))
  {
    hide Recorded, AbortLocked, ExecutionEvents, Balance, LastStarted;
    TracedTells(env, c, l);
    var d := AbortLocked(env, c).0;
    AbortUnlocks(env, c);
    if Active(c) {
      var m := AbortMoves(env, c, l);
    } else {
      LateAbort(env, c);
      LastStartedPush(ExecutionEvents(c.plant.events), d.plant.events[|d.plant.events| - 1]);
      if m :| Recorded(env, d, m) { TracedTells(env, d, m); }
    }
  }

  lemma AbortUnlocks(env: Environment, c: Controller)
    requires Consistent(c) && !c.locks.programs
    ensures AbortLocked(env, c).0.locks == c.locks
  {
    hide MasterOperations.CloseMaster, ZoneOperations.CloseZone;
  }

  // ----- Runs -----

  predicate AllTested(waiting: seq<Pending>) {
    forall i | 0 <= i < |waiting| :: Tested(waiting[i])
  }

  /** Whether the move takes a lock out of order. */
  predicate OutOfOrder(r: Racing, move: Move) {
    move.Lock? && move.index < |r.waiting| && !InOrder(r.c, r.waiting[move.index])
  }

  lemma StepKeepsTrace(env: Environment, r: Racing, move: Move)
    requires Monotone(env) && Traced(env, r.c) && !r.c.locks.programs && AllTested(r.waiting)
    ensures var q := Next(env, r, move);
            && AllTested(q.waiting) && !q.c.locks.programs && (Traced(env, q.c) <==> !OutOfOrder(r, move))
  {
    hide Recorded, Serve, Locked, InOrder, ContextValid;
    match move {
      case Whole(call) =>
        var l :| Recorded(env, r.c, l);
        TracedTells(env, r.c, l);
        var m := ServeMoves(env, r.c, l, call);
        ServeFrames(env, r.c, call);
      case Lock(i) => if i < |r.waiting| { LockKeepsTrace(env, r.c, r.waiting[i]); }
      case _ =>
    }
  }

  /** No step of the run takes a lock out of order. */
  predicate Orderly(env: Environment, r: Racing, moves: seq<Move>) {
    moves == [] ||
    (Orderly(env, r, moves[..|moves| - 1]) && !OutOfOrder(Race(env, r, moves[..|moves| - 1]), moves[|moves| - 1]))
  }

  ghost predicate TracedThroughout(env: Environment, r: Racing, moves: seq<Move>) {
    Traced(env, Race(env, r, moves).c) && (moves == [] || TracedThroughout(env, r, moves[..|moves| - 1]))
  }

  lemma {:induction false} RaceKeepsTrace(env: Environment, r: Racing, moves: seq<Move>)
    requires Monotone(env) && Traced(env, r.c) && !r.c.locks.programs && AllTested(r.waiting)
    ensures TracedThroughout(env, r, moves) <==> Orderly(env, r, moves)
    ensures Orderly(env, r, moves) ==> var q := Race(env, r, moves); AllTested(q.waiting) && !q.c.locks.programs
  {
    hide Traced, Next, OutOfOrder, AllTested;
    if moves != [] {
      var before := moves[..|moves| - 1];
      RaceKeepsTrace(env, r, before);
      if Orderly(env, r, before) {
        assert Traced(env, Race(env, r, before).c);
        StepKeepsTrace(env, Race(env, r, before), moves[|moves| - 1]);
      }
    }
  }

  /**
   With any number of calls between test and lock: from READY, the trace is at every moment a sequence of executions with the one
   in flight of the program that the service holds, if and only if every start that gets the lock finds no program active or the
   very same one, and every abort that gets it finds one active.
   */
  lemma RacesAreTraced(env: Environment, boot: Controller, moves: seq<Move>)
    requires Fresh(boot) && Monotone(env)
    ensures TracedThroughout(env, Racing(boot, []), moves) <==> Orderly(env, Racing(boot, []), moves)
  {
    hide Recorded, Orderly, TracedThroughout;
    FreshIsRecorded(env, boot);
    FreshUnlocked(boot);
    RaceKeepsTrace(env, Racing(boot, []), moves);
  }

  lemma FreshUnlocked(boot: Controller)
    requires Fresh(boot)
    ensures !boot.locks.programs && !Active(boot) && !boot.locks.master
  {
  }

  // ----- Both ways out of order happen -----

  lemma FirstStart(env: Environment, boot: Controller, program: Program, context: StartContext)
    requires Fresh(boot) && program.steps != [] && ContextValid(context) && env.valve(boot.plant.valveCalls) == Ok
    ensures var (d, result) := StartProgram(env, boot, program, context);
            result == Ok && Active(d) && Consistent(d) && d.program == Some(program) && d.context == context && d.locks == boot.locks
  {
    hide PlannedDuration, ContextValid;
  }

  /** Two starts tested before either takes the lock: the second replaces the program the first one runs. */
  lemma SecondStartReplaces(env: Environment, boot: Controller, first: Program, second: Program, context: StartContext)
    requires Fresh(boot) && Monotone(env) && env.valve(boot.plant.valveCalls) == Ok && ContextValid(context)
    requires first.steps != [] && second.steps != [] && first != second
    ensures var r := Race(env, Racing(boot, []), [Test(ToStart(second, context)), Whole(StartCall(first, context)), Lock(0)]);
            && Active(r.c) && r.c.program == Some(second) && !Traced(env, r.c)
            && LastStarted(ExecutionEvents(r.c.plant.events)) == Some((first, context))
  {
    hide Recorded, StartProgram, StartLocked, ContextValid, ExecutionEvents, LastStarted, Balance;
    FreshIsRecorded(env, boot);
    FreshUnlocked(boot);
    FirstStart(env, boot, first, context);
    var l := StartMoves(env, boot, Ledger([], None), first, context);
    var d := StartProgram(env, boot, first, context).0;
    TracedTells(env, d, l);
    LateStart(env, d, second, context);
    LockKeepsTrace(env, d, ToStart(second, context));
    var a, b, e := Test(ToStart(second, context)), Whole(StartCall(first, context)), Lock(0);
    ThreeMoves(env, Racing(boot, []), a, b, e);
  }

  lemma ThreeMoves(env: Environment, r: Racing, a: Move, b: Move, e: Move)
    ensures Race(env, r, [a, b, e]) == Next(env, Next(env, Next(env, r, a), b), e)
  {
    hide Next;
    assert [a, b, e][..2] == [a, b] && [a, b][..1] == [a] && [a][..0] == [];
    assert Race(env, r, [a]) == Next(env, r, a);
    assert Race(env, r, [a, b]) == Next(env, Race(env, r, [a]), b);
  }

  /** After an abort, another one that was tested before it. */
  lemma AbortedTwice(env: Environment, c: Controller, l: Ledger)
    requires Monotone(env) && Recorded(env, c, l) && Active(c) && !c.locks.programs
    ensures Consistent(c)
    ensures var d := AbortProgram(env, c).0; var e := AbortLocked(env, d).0;
            && Consistent(d) && !Active(e) && !Traced(env, e) && Balance(ExecutionEvents(e.plant.events)) == -1
  {
    hide Recorded, AbortProgram, AbortLocked, ExecutionEvents, LastStarted, Balance;
    TracedTells(env, c, l);
    var m := AbortMoves(env, c, l);
    var d := AbortProgram(env, c).0;
    AbortEnds(env, c);
    TracedTells(env, d, m);
    LateAbort(env, d);
    var e := AbortLocked(env, d).0;
    LastStartedPush(ExecutionEvents(d.plant.events), e.plant.events[|e.plant.events| - 1]);
    LockKeepsTrace(env, d, ToAbort);
  }

  /** Two aborts tested before either takes the lock: one STARTED, and TERMINATED twice. */
  lemma SecondAbortTerminatesAgain(env: Environment, boot: Controller, program: Program, context: StartContext)
    requires Fresh(boot) && Monotone(env) && env.valve(boot.plant.valveCalls) == Ok && ContextValid(context) && program.steps != []
    ensures var r := Race(env, Racing(boot, []), [Whole(StartCall(program, context)), Test(ToAbort), Whole(AbortCall), Lock(0)]);
            && !Active(r.c) && !Traced(env, r.c) && Balance(ExecutionEvents(r.c.plant.events)) == -1
  {
    hide Recorded, StartProgram, AbortProgram, AbortLocked, ContextValid, ExecutionEvents, LastStarted, Balance, Race;
    FreshIsRecorded(env, boot);
    FreshUnlocked(boot);
    FirstStart(env, boot, program, context);
    var l := StartMoves(env, boot, Ledger([], None), program, context);
    AbortedTwice(env, StartProgram(env, boot, program, context).0, l);
    var a, b, e, f := Whole(StartCall(program, context)), Test(ToAbort), Whole(AbortCall), Lock(0);
    var r := Racing(boot, []);
    FirstOfFour(env, r, a, b, e, f);
    ThreeMoves(env, Next(env, r, a), b, e, f);
  }

  lemma FirstOfFour(env: Environment, r: Racing, a: Move, b: Move, e: Move, f: Move)
    ensures Race(env, r, [a, b, e, f]) == Race(env, Next(env, r, a), [b, e, f])
  {
    hide Next;
    ThreeMoves(env, r, a, b, e);
    ThreeMoves(env, Next(env, r, a), b, e, f);
    assert [a, b, e, f][..3] == [a, b, e];
  }

  lemma AbortEnds(env: Environment, c: Controller)
    requires Consistent(c) && Active(c) && !c.locks.programs
    ensures !Active(AbortProgram(env, c).0) && AbortProgram(env, c).0.locks == c.locks
  {
    hide MasterOperations.CloseMaster, ZoneOperations.CloseZone;
  }
}
