/** Program executions as values, the events they publish, and how every service call extends the trace. */
module Executions {
  import opened Bytes
  import opened Common
  import opened RuntimeStates
  import opened Plants
  import opened ProgramOperations
  import opened ServiceRuns
  import ZoneOperations
  import MasterOperations

  // ----- Executions and their events -----

  /** `steps` are the start and end times of the completed steps, `running` the start of a step still open. */
  datatype Execution = Execution(
    program: Program,
    context: StartContext,
    startedAt: u64,
    steps: seq<(u64, u64)>,
    running: Option<u64>,
    end: Option<(u64, ExecutionResult)>)

  function StepsStarted(e: Execution): nat {
    |e.steps| + if e.running.Some? then 1 else 0
  }

  /** Steps run in order from the first; a completed execution completed every one of them. */
  predicate Proper(e: Execution) {
    && e.program.steps != [] && ContextValid(e.context)
    && StepsStarted(e) <= |e.program.steps|
    && (e.end.Some? ==> e.end.value.1 != InterruptedByReboot)
    && (e.end.Some? && e.end.value.1 == ExecutionCompleted ==> |e.steps| == |e.program.steps|)
  }

  function RenderSteps(program: Program, steps: seq<(u64, u64)>): seq<Event>
    requires |steps| <= |program.steps|
  {
    if steps == [] then []
    else
      var i := |steps| - 1;
      RenderSteps(program, steps[..i]) +
      [StepStarted(steps[i].0, i, program.steps[i].zone), StepCompleted(steps[i].1, i, program.steps[i].zone)]
  }

  /** STARTED, then the steps in order, then TERMINATED once. */
  function Render(e: Execution): seq<Event>
    requires Proper(e)
  {
    [Started(e.startedAt, e.program, PlannedDuration(e.program), e.context)]
    + RenderSteps(e.program, e.steps)
    + (if e.running.Some? then [StepStarted(e.running.value, |e.steps|, e.program.steps[|e.steps|].zone)] else [])
    + (if e.end.Some? then [Terminated(e.end.value.0, e.end.value.1)] else [])
  }

  function RenderAll(executions: seq<Execution>): seq<Event>
    requires forall i | 0 <= i < |executions| :: Proper(executions[i])
  {
    if executions == [] then []
    else RenderAll(executions[..|executions| - 1]) + Render(executions[|executions| - 1])
  }

  lemma RenderRunning(e: Execution, t: u64)
    requires Proper(e) && e.running.None? && e.end.None? && |e.steps| < |e.program.steps|
    ensures var f := e.(running := Some(t));
            Proper(f) && Render(f) == Render(e) + [StepStarted(t, |e.steps|, e.program.steps[|e.steps|].zone)]
  {
    hide ContextValid, PlannedDuration, RenderSteps;
  }

  lemma RenderStepDone(e: Execution, t: u64)
    requires Proper(e) && e.running.Some? && e.end.None?
    ensures var f := e.(steps := e.steps + [(e.running.value, t)], running := None);
            Proper(f) && Render(f) == Render(e) + [StepCompleted(t, |e.steps|, e.program.steps[|e.steps|].zone)]
  {
    hide ContextValid, PlannedDuration;
    var steps := e.steps + [(e.running.value, t)];
    assert steps[..|e.steps|] == e.steps;
  }

  lemma RenderEnd(e: Execution, t: u64, result: ExecutionResult)
    requires Proper(e) && e.end.None? && result != InterruptedByReboot
    requires result == ExecutionCompleted ==> |e.steps| == |e.program.steps|
    ensures var f := e.(end := Some((t, result))); Proper(f) && Render(f) == Render(e) + [Terminated(t, result)]
  {
    hide ContextValid, PlannedDuration, RenderSteps;
  }

  // ----- The controller and its trace -----

  /** The trace so far: executions that ended, and the one in flight. */
  datatype Ledger = Ledger(done: seq<Execution>, current: Option<Execution>)

  predicate Ended(executions: seq<Execution>) {
    forall i | 0 <= i < |executions| :: Proper(executions[i]) && executions[i].end.Some?
  }

  /** The trace is what `done` published, followed by what `e`, which has not ended, published so far. */
  predicate Ongoing(c: Controller, done: seq<Execution>, e: Execution) {
    && Ended(done) && Proper(e) && e.end.None?
    && c.program == Some(e.program) && c.context == e.context
    && ExecutionEvents(c.plant.events) == RenderAll(done) + Render(e)
  }

  predicate Idle(c: Controller, done: seq<Execution>) {
    Ended(done) && !Active(c) && ExecutionEvents(c.plant.events) == RenderAll(done)
  }

  /** How far the program's runtime says the execution is. */
  predicate AtPhase(c: Controller, e: Execution) {
    match c.plant.store.program.state
    case WaitingMaster => e.steps == [] && e.running.None? && c.plant.store.program.step == 0
    case RunningZone => |e.steps| == c.plant.store.program.step && e.running.Some?
    case WaitingPostDelay => |e.steps| == |e.program.steps| && c.plant.store.program.step < |e.program.steps|
    case _ => false
  }

  // ----- Time -----

  function Delay(c: Controller): u32 {
    c.plant.store.master.preOpenDelay
  }

  /** The master valve was confirmed after `t0`, and is OPEN only after its delay. */
  predicate MasterAfter(env: Environment, p: Plant, t0: u64) {
    && (p.store.master.state == MasterOpening ==> t0 <= p.store.master.confirmedAt <= Now(env, p))
    && (p.store.master.state == MasterOpen ==> t0 + p.store.master.preOpenDelay <= Now(env, p))
  }

  predicate InTime(env: Environment, c: Controller, e: Execution) {
    && e.startedAt <= Time(env, c)
    && MasterAfter(env, c.plant, e.startedAt)
    && (c.plant.store.program.state == RunningZone && c.plant.store.program.step <= |e.program.steps| ==>
        e.startedAt + Delay(c) + StepsDuration(e.program.steps[..c.plant.store.program.step])
        <= c.plant.store.program.startedAt <= Time(env, c))
    && (c.plant.store.program.state == WaitingPostDelay ==>
        e.startedAt + Delay(c) + StepsDuration(e.program.steps) <= c.plant.store.program.startedAt <= Time(env, c))
  }

  /** A completed execution lasted at least its delays and the sum of its steps. */
  predicate LongEnough(preOpenDelay: u32, e: Execution) {
    e.end.Some? && e.end.value.1 == ExecutionCompleted ==>
      e.end.value.0 >= e.startedAt + preOpenDelay + StepsDuration(e.program.steps) + e.program.postDelay
  }

  predicate AllLongEnough(preOpenDelay: u32, done: seq<Execution>) {
    forall i | 0 <= i < |done| :: LongEnough(preOpenDelay, done[i])
  }

  /** The invariant of every run: shape of the trace, phase of the program, and time. */
  predicate Recorded(env: Environment, c: Controller, l: Ledger) {
    && AllLongEnough(Delay(c), l.done)
    && match l.current
       case None => Idle(c, l.done)
       case Some(e) => Active(c) && Ongoing(c, l.done, e) && AtPhase(c, e) && InTime(env, c, e)
  }

  // ----- Pieces of program operations -----

  lemma ZoneOpsAfter(env: Environment, p: Plant, q: Plant, t0: u64)
    requires Monotone(env) && ZoneOperations.ZoneFrame(p, q) && MasterAfter(env, p, t0)
    ensures MasterAfter(env, q, t0) && Now(env, p) <= Now(env, q)
  {
  }

  /** Opening happens no earlier than now; waiting out the delay takes the delay. */
  lemma MasterOpsAfter(env: Environment, p: Plant, t0: u64)
    requires Monotone(env) && MasterAfter(env, p, t0) && t0 <= Now(env, p)
    ensures MasterAfter(env, MasterOperations.OpenMaster(env, p).0, t0)
    ensures MasterAfter(env, MasterOperations.ProcessMaster(env, p).0, t0)
    ensures MasterAfter(env, MasterOperations.CloseMaster(env, p).0, t0)
  {
    assert forall k | k >= p.ticks :: env.clock(p.ticks) <= env.clock(k);
  }

  lemma ClockGrows(env: Environment, i: nat, j: nat)
    requires Monotone(env) && i <= j
    ensures env.clock(i) <= env.clock(j)
  {
  }

  /** The end of an execution: it moves to the executions that ended. */
  lemma FinishEnds(env: Environment, c: Controller, done: seq<Execution>, e: Execution, state: ProgramState, result: ExecutionResult)
    returns (f: Execution)
    requires Ongoing(c, done, e) && result != InterruptedByReboot
    requires state == Completed || state == Aborted || state == ProgramFault
    requires result == ExecutionCompleted ==> |e.steps| == |e.program.steps|
    ensures var d := Finish(env, c, state, result);
            && f == e.(end := Some((Time(env, c), result)))
            && Idle(d, done + [f]) && d.plant.store.program.state == state && Delay(d) == Delay(c)
  {
    hide ExecutionEvents, Render, Proper, RenderAll;
    f := e.(end := Some((Time(env, c), result)));
    RenderEnd(e, Time(env, c), result);
    ExecutionEventsAppend(c.plant.events, Terminated(Time(env, c), result));
    RenderAllPush(done, f);
  }

  lemma RenderAllPush(done: seq<Execution>, e: Execution)
    requires Ended(done) && Proper(e)
    ensures RenderAll(done + [e]) == RenderAll(done) + Render(e)
  {
    hide Render, Proper;
    assert (done + [e])[..|done|] == done;
  }

  lemma FaultEnds(env: Environment, c: Controller, done: seq<Execution>, e: Execution) returns (f: Execution)
    requires Ongoing(c, done, e)
    ensures var d := FaultProgram(env, c);
            && Idle(d, done + [f]) && d.plant.store.program.state == ProgramFault && Delay(d) == Delay(c)
            && LongEnough(Delay(c), f)
  {
    hide Finish, MasterOperations.CloseMaster, ExecutionEvents, RenderAll, Render, Proper, CloseEligible;
    var shut := if CloseEligible(c.plant.store) then CallCloseMaster(env, c).0 else c;
    f := FinishEnds(env, shut, done, e, ProgramFault, ExecutionFault);
  }

  /** Where a part of an operation leaves the ledger: recorded, with nothing that ended before taken back. */
  predicate Moved(env: Environment, done: seq<Execution>, d: Controller, m: Ledger) {
    Recorded(env, d, m) && done <= m.done
  }

  lemma FaultMoves(env: Environment, c: Controller, done: seq<Execution>, e: Execution) returns (m: Ledger)
    requires Ongoing(c, done, e) && AllLongEnough(Delay(c), done)
    ensures Moved(env, done, FaultProgram(env, c), m)
  {
    hide FaultProgram, Idle, LongEnough;
    var f := FaultEnds(env, c, done, e);
    m := Ledger(done + [f], None);
  }

  lemma FinishMoves(env: Environment, c: Controller, done: seq<Execution>, e: Execution, state: ProgramState, result: ExecutionResult)
    returns (m: Ledger)
    requires Ongoing(c, done, e) && AllLongEnough(Delay(c), done) && result != InterruptedByReboot
    requires state == Completed || state == Aborted || state == ProgramFault
    requires result == ExecutionCompleted ==>
      && |e.steps| == |e.program.steps|
      && Time(env, c) >= e.startedAt + Delay(c) + StepsDuration(e.program.steps) + e.program.postDelay
    ensures Moved(env, done, Finish(env, c, state, result), m) && m.current.None?
  {
    hide Finish, Idle;
    var f := FinishEnds(env, c, done, e, state, result);
    m := Ledger(done + [f], None);
  }

  lemma OpenCurrentZoneMoves(env: Environment, c: Controller, done: seq<Execution>, e: Execution) returns (m: Ledger)
    requires Monotone(env) && Ongoing(c, done, e) && AllLongEnough(Delay(c), done) && e.running.None?
    requires c.plant.store.program.state == WaitingMaster || c.plant.store.program.state == RunningZone
    requires c.plant.store.program.step == |e.steps| < |e.program.steps|
    requires MasterAfter(env, c.plant, e.startedAt)
    requires e.startedAt + Delay(c) + StepsDuration(e.program.steps[..|e.steps|]) <= Time(env, c)
    ensures Moved(env, done, OpenCurrentZone(env, c).0, m)
  {
    hide FaultProgram, ZoneOperations.OpenZone, ExecutionEvents, RenderAll, Render, Proper, AllLongEnough;
    var index := |e.steps|;
    var step := e.program.steps[index];
    var (open, result) := CallOpenZone(env, c, step.zone, step.duration);
    assert MasterAfter(env, open.plant, e.startedAt) && Time(env, c) <= Time(env, open) by {
      if !c.locks.zones { ZoneOpsAfter(env, c.plant, open.plant, e.startedAt); }
    }
    if result != Ok {
      m := FaultMoves(env, open, done, e);
    } else {
      var t := Time(env, open);
      var running := Ticked(WithStore(open, SetRunningZone(open.plant.store, index, t).0));
      var f := e.(running := Some(Time(env, running)));
      RenderRunning(e, Time(env, running));
      ExecutionEventsAppend(running.plant.events, StepStarted(Time(env, running), index, step.zone));
      ClockGrows(env, open.plant.ticks, open.plant.ticks + 1);
      ClockGrows(env, open.plant.ticks, open.plant.ticks + 2);
      m := Ledger(done, Some(f));
      assert RenderAll(done) + (Render(e) + [StepStarted(Time(env, running), index, step.zone)])
          == RenderAll(done) + Render(e) + [StepStarted(Time(env, running), index, step.zone)];
    }
  }

  lemma StartMoves(env: Environment, c: Controller, l: Ledger, program: Program, context: StartContext) returns (m: Ledger)
    requires Monotone(env) && Consistent(c) && Recorded(env, c, l)
    ensures Moved(env, l.done, StartProgram(env, c, program, context).0, m)
  {
    hide ExecutionEvents, MasterOperations.OpenMaster, Finish, PlannedDuration, RenderAll, Ended, AllLongEnough, ContextValid;
    m := l;
    if program.steps != [] && ContextValid(context) && !Active(c) && !c.locks.programs {
      var (store, result) := BeginProgram(c.plant.store);
      if result == Ok {
        var holding := Hold(WithStore(c, store)).(program := Some(program), context := context);
        var e := Execution(program, context, Time(env, holding), [], None, None);
        var event := Started(Time(env, holding), program, PlannedDuration(program), context);
        var started := Emit(holding, event);
        ExecutionEventsAppend(holding.plant.events, event);
        assert Render(e) == [event];
        ClockGrows(env, holding.plant.ticks, started.plant.ticks);
        var (opening, confirmed) := CallOpenMaster(env, started);
        if confirmed != Ok {
          m := FinishMoves(env, opening, l.done, e, ProgramFault, ExecutionFault);
        } else {
          OpenedAfter(env, started.plant, e.startedAt);
          ClockGrows(env, started.plant.ticks, opening.plant.ticks);
          m := Ledger(l.done, Some(e));
        }
      }
    }
  }

  /** A successful open leaves the valve OPENING, confirmed no earlier than now. */
  lemma OpenedAfter(env: Environment, p: Plant, t0: u64)
    requires Monotone(env) && t0 <= Now(env, p) && MasterOperations.OpenMaster(env, p).1 == Ok
    ensures MasterAfter(env, MasterOperations.OpenMaster(env, p).0, t0)
  {
    ClockGrows(env, p.ticks, p.ticks + 1);
  }

  lemma WaitingMasterMoves(env: Environment, c: Controller, l: Ledger) returns (m: Ledger)
    requires Monotone(env) && Consistent(c) && Recorded(env, c, l) && c.plant.store.program.state == WaitingMaster
    ensures Moved(env, l.done, ProcessWaitingMaster(env, c).0, m)
  {
    hide ExecutionEvents, MasterOperations.ProcessMaster, FaultProgram, OpenCurrentZone, RenderAll, Render, Proper, Ended, AllLongEnough;
    var e := l.current.value;
    var (timed, result) := CallProcessMaster(env, c);
    MasterOpsAfter(env, c.plant, e.startedAt);
    ClockGrows(env, c.plant.ticks, timed.plant.ticks);
    if result != Ok || timed.plant.store.master.state == MasterFault {
      m := FaultMoves(env, timed, l.done, e);
    } else if timed.plant.store.master.state == MasterOpen {
      assert e.program.steps[..0] == [];
      m := OpenCurrentZoneMoves(env, timed, l.done, e);
    } else {
      m := l;
    }
  }

  lemma AdvanceMoves(env: Environment, c: Controller, done: seq<Execution>, e: Execution) returns (m: Ledger)
    requires Monotone(env) && Ongoing(c, done, e) && AllLongEnough(Delay(c), done) && e.running.Some?
    requires c.plant.store.program.state == RunningZone && c.plant.store.program.step == |e.steps| < |e.program.steps|
    requires MasterAfter(env, c.plant, e.startedAt)
    requires e.startedAt + Delay(c) + StepsDuration(e.program.steps[..|e.steps| + 1]) <= Time(env, c)
    ensures Moved(env, done, Advance(env, c).0, m)
  {
    hide ExecutionEvents, OpenCurrentZone, RenderAll, Render, Proper, AllLongEnough, StepsDuration;
    var index := |e.steps|;
    var t := Time(env, c);
    var event := StepCompleted(t, index, e.program.steps[index].zone);
    var done1 := Emit(c, event);
    var f := e.(steps := e.steps + [(e.running.value, t)], running := None);
    RenderStepDone(e, t);
    ExecutionEventsAppend(c.plant.events, event);
    assert RenderAll(done) + (Render(e) + [event]) == RenderAll(done) + Render(e) + [event];
    ClockGrows(env, c.plant.ticks, c.plant.ticks + 1);
    ClockGrows(env, c.plant.ticks, c.plant.ticks + 2);
    ClockGrows(env, c.plant.ticks + 1, c.plant.ticks + 2);
    if index + 1 < |e.program.steps| {
      var moved := Ticked(WithStore(done1, SetRunningZone(done1.plant.store, index + 1, Time(env, done1)).0));
      m := OpenCurrentZoneMoves(env, moved, done, f);
    } else {
      assert e.program.steps[..index + 1] == e.program.steps;
      m := Ledger(done, Some(f));
    }
  }

  lemma RunningZoneMoves(env: Environment, c: Controller, l: Ledger) returns (m: Ledger)
    requires Monotone(env) && Consistent(c) && Recorded(env, c, l) && c.plant.store.program.state == RunningZone
    ensures Moved(env, l.done, ProcessRunningZone(env, c).0, m)
  {
    hide ExecutionEvents, ZoneOperations.CloseZone, FaultProgram, Advance, RenderAll, Render, Proper, Ended, AllLongEnough, StepsDuration;
    var e := l.current.value;
    var runtime := c.plant.store.program;
    var step := e.program.steps[runtime.step];
    ClockGrows(env, c.plant.ticks, c.plant.ticks + 1);
    if Elapsed(Time(env, c), runtime.startedAt) < step.duration {
      m := l;
    } else {
      var (closed, result) := CallCloseZone(env, Ticked(c), step.zone);
      assert MasterAfter(env, closed.plant, e.startedAt) && Time(env, c) <= Time(env, closed) by {
        if !c.locks.zones { ZoneOpsAfter(env, Tick(c.plant), closed.plant, e.startedAt); }
      }
      if result != Ok {
        m := FaultMoves(env, closed, l.done, e);
      } else {
        StepsGrow(e.program.steps, runtime.step);
        m := AdvanceMoves(env, closed, l.done, e);
      }
    }
  }

  lemma StepsGrow(steps: seq<Step>, i: nat)
    requires i < |steps|
    ensures StepsDuration(steps[..i + 1]) == StepsDuration(steps[..i]) + steps[i].duration
  {
    assert steps[..i + 1][..i] == steps[..i];
  }

  lemma PostDelayMoves(env: Environment, c: Controller, l: Ledger) returns (m: Ledger)
    requires Monotone(env) && Consistent(c) && Recorded(env, c, l) && c.plant.store.program.state == WaitingPostDelay
    ensures Moved(env, l.done, ProcessPostDelay(env, c).0, m)
  {
    hide ExecutionEvents, MasterOperations.CloseMaster, Finish, RenderAll, Render, Proper, Ended, AllLongEnough, StepsDuration;
    var e := l.current.value;
    ClockGrows(env, c.plant.ticks, c.plant.ticks + 1);
    if Elapsed(Time(env, c), c.plant.store.program.startedAt) < e.program.postDelay {
      m := l;
    } else {
      var closed := CallCloseMaster(env, Ticked(c)).0;
      ClockGrows(env, c.plant.ticks, closed.plant.ticks);
      m := FinishMoves(env, closed, l.done, e, Completed, ExecutionCompleted);
    }
  }

  lemma ProcessMoves(env: Environment, c: Controller, l: Ledger) returns (m: Ledger)
    requires Monotone(env) && Consistent(c) && Recorded(env, c, l)
    ensures Moved(env, l.done, ProcessProgram(env, c).0, m)
  {
    hide ProcessWaitingMaster, ProcessRunningZone, ProcessPostDelay, ExecutionEvents, RenderAll, Render, Proper, Ended, AllLongEnough;
    m := l;
    if Active(c) && !c.locks.programs {
      match c.plant.store.program.state {
        case WaitingMaster => m := WaitingMasterMoves(env, Hold(c), l);
        case RunningZone => m := RunningZoneMoves(env, Hold(c), l);
        case WaitingPostDelay => m := PostDelayMoves(env, Hold(c), l);
      }
    }
  }

  lemma AbortMoves(env: Environment, c: Controller, l: Ledger) returns (m: Ledger)
    requires Monotone(env) && Consistent(c) && Recorded(env, c, l)
    ensures Moved(env, l.done, AbortProgram(env, c).0, m)
  {
    hide ExecutionEvents, ZoneOperations.CloseZone, MasterOperations.CloseMaster, Finish, RenderAll, Render, Proper, Ended, AllLongEnough,
         InTime;
    m := l;
    if Active(c) && !c.locks.programs {
      var held := Hold(c);
      var (stopped, result) :=
        if c.plant.store.program.state == RunningZone
        then CallCloseZone(env, held, c.program.value.steps[c.plant.store.program.step].zone)
        else (held, Ok);
      var (shut, final) :=
        if result == Ok && stopped.plant.store.master.state != MasterClosed then CallCloseMaster(env, stopped) else (stopped, result);
      assert Ongoing(shut, l.done, l.current.value);
      if final == Ok {
        m := FinishMoves(env, shut, l.done, l.current.value, Aborted, ExecutionAborted);
      } else {
        m := FinishMoves(env, shut, l.done, l.current.value, ProgramFault, ExecutionFault);
      }
    }
  }

  // ----- Calls and runs -----

  /** A call on the zones or the master valve, by anyone, while a program may be active. */
  lemma OutsideMoves(env: Environment, c: Controller, l: Ledger, p: Plant)
    requires Monotone(env) && Recorded(env, c, l)
    requires p.store.program == c.plant.store.program && p.store.master.preOpenDelay == Delay(c) && p.ticks >= c.plant.ticks
    requires ExecutionEvents(p.events) == ExecutionEvents(c.plant.events)
    requires l.current.Some? ==> MasterAfter(env, p, l.current.value.startedAt)
    ensures Recorded(env, c.(plant := p), l)
  {
    hide ExecutionEvents, RenderAll, Render, Proper, Ended, AllLongEnough, MasterAfter, StepsDuration;
    ClockGrows(env, c.plant.ticks, p.ticks);
  }

  lemma ServeMoves(env: Environment, c: Controller, l: Ledger, call: Call) returns (m: Ledger)
    requires Monotone(env) && Consistent(c) && Recorded(env, c, l)
    ensures Moved(env, l.done, Serve(env, c, call), m)
  {
    hide ZoneOperations.OpenZone, ZoneOperations.CloseZone, ZoneOperations.SafeClose, ZoneOperations.ProcessTimeouts,
         MasterOperations.OpenMaster, MasterOperations.ProcessMaster, MasterOperations.CloseMaster, AllLongEnough,
         StartProgram, ProcessProgram, AbortProgram, ExecutionEvents, Idle, Ongoing, AtPhase, MasterAfter, StepsDuration;
    if call.StartCall? {
      m := StartMoves(env, c, l, call.program, call.context);
    } else if call.ProcessCall? {
      m := ProcessMoves(env, c, l);
    } else if call.AbortCall? {
      m := AbortMoves(env, c, l);
    } else {
      m := l;
      var d := Serve(env, c, call);
      if l.current.Some? {
        var t0 := l.current.value.startedAt;
        MasterOpsAfter(env, c.plant, t0);
        if ZoneOperations.ZoneFrame(c.plant, d.plant) { ZoneOpsAfter(env, c.plant, d.plant, t0); }
      }
      OutsideMoves(env, c, l, d.plant);
    }
  }

  lemma {:induction false} RunMoves(env: Environment, c: Controller, l: Ledger, calls: seq<Call>) returns (m: Ledger)
    requires Monotone(env) && Consistent(c) && Recorded(env, c, l)
    ensures Moved(env, l.done, Run(env, c, calls), m)
  {
    hide Recorded, Serve;
    if calls == [] {
      m := l;
    } else {
      var before := RunMoves(env, c, l, calls[..|calls| - 1]);
      m := ServeMoves(env, Run(env, c, calls[..|calls| - 1]), before, calls[|calls| - 1]);
    }
  }
}
