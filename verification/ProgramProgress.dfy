/** Progress: with obliging drivers and deadlines that have passed, every call of a program moves it one phase on. */
module ProgramProgress {
  import opened Bytes
  import opened Common
  import opened RuntimeStates
  import opened Plants
  import opened ProgramOperations
  import opened Interlock
  import opened ServiceRuns
  import opened InterlockRuns
  import opened ProgramOutcomes
  import ZoneOperations

  ghost predicate Succeeding(env: Environment) {
    (forall n: nat :: env.outputs(n) == Done) && (forall n: nat :: env.valve(n) == Ok)
  }

  predicate Known(zones: seq<ZoneRuntime>, id: Text) {
    var found := FindZone(zones, id);
    found.Some? && (zones[found.value].state == ZoneIdle || zones[found.value].state == ZoneOpen)
  }

  /** No fault yet, and every zone of the program is known and enabled. */
  predicate Prepared(s: RuntimeState, program: Program) {
    s.system != Error && forall i | 0 <= i < |program.steps| :: Known(s.zones, program.steps[i].zone)
  }

  /** A program on its way, with nothing faulted. */
  predicate Going(c: Controller) {
    && Resting(c) && c.program.Some? && Prepared(c.plant.store, c.program.value)
    && match c.plant.store.program.state
       case WaitingMaster => Filling(c.plant) && AllOff(c.plant.store.outputs) && c.plant.store.program.step == 0
       case RunningZone => Watering(c)
       case WaitingPostDelay => c.plant.store.master.state == MasterOpen && AllOff(c.plant.store.outputs)
       case Completed => true
       case _ => false
  }

  /** The master valve was opened, and its delay may have been waited out. */
  predicate Filling(p: Plant) {
    p.store.master.state == MasterOpening || p.store.master.state == MasterOpen
  }

  /** Calls still needed. */
  function Remaining(c: Controller): int
    requires c.program.Some?
  {
    var n := |c.program.value.steps|;
    match c.plant.store.program.state
    case WaitingMaster => n + 2
    case RunningZone => n + 1 - c.plant.store.program.step
    case WaitingPostDelay => 1
    case _ => 0
  }

  /** The wait of the current phase is over at the next reading of the clock. */
  predicate Deadline(env: Environment, c: Controller) {
    Consistent(c) ==>
      match c.plant.store.program.state
      case WaitingMaster =>
        || c.plant.store.master.state == MasterOpen
        || Elapsed(Time(env, c), c.plant.store.master.confirmedAt) >= c.plant.store.master.preOpenDelay
      case RunningZone =>
        Elapsed(Time(env, c), c.plant.store.program.startedAt) >= c.program.value.steps[c.plant.store.program.step].duration
      case WaitingPostDelay => Elapsed(Time(env, c), c.plant.store.program.startedAt) >= c.program.value.postDelay
      case _ => true
  }

  // ----- Operations that succeed -----

  lemma KnownStays(a: seq<ZoneRuntime>, b: seq<ZoneRuntime>, i: nat, zone: ZoneRuntime, id: Text)
    requires i < |a| && b == a[i := zone] && zone.id == a[i].id && (zone.state == ZoneIdle || zone.state == ZoneOpen)
    requires Known(a, id)
    ensures Known(b, id)
  {
    assert forall j | 0 <= j < |a| :: b[j].id == a[j].id;
    var found := FindZone(a, id).value;
    assert b[found].id == id;
    assert FindZone(b, id) == Some(found);
  }

  lemma PreparedStays(s: RuntimeState, t: RuntimeState, i: nat, zone: ZoneRuntime, program: Program)
    requires i < |s.zones| && t.zones == s.zones[i := zone] && zone.id == s.zones[i].id
    requires zone.state == ZoneIdle || zone.state == ZoneOpen
    requires Prepared(s, program) && t.system != Error
    ensures Prepared(t, program)
  {
    hide Known;
    forall j | 0 <= j < |program.steps| ensures Known(t.zones, program.steps[j].zone) {
      KnownStays(s.zones, t.zones, i, zone, program.steps[j].zone);
    }
  }

  lemma OpenSucceeds(env: Environment, p: Plant, id: Text, duration: u32, program: Program)
    requires Succeeding(env) && Interlocked(p) && AllOff(p.store.outputs) && p.store.master.state == MasterOpen
    requires Prepared(p.store, program) && Known(p.store.zones, id)
    ensures var (q, result) := ZoneOperations.OpenZone(env, p, id, duration); result == Ok && Prepared(q.store, program)
  {
    hide ExecutionEvents, ZoneOperations.FaultZone, Prepared, Driven, FindZone;
    var i := FindZone(p.store.zones, id).value;
    ReadyWhenAllOff(p);
    assert p.store.system != Error by { SystemOf(p.store, program); }
    var manual := p.store.(system := Manual);
    var zone := ZoneOperations.OpenZone(env, p, id, duration).0.store.zones[i];
    var q := ZoneOperations.OpenZone(env, p, id, duration).0;
    PreparedStays(p.store, q.store, i, zone, program);
  }

  lemma SystemOf(s: RuntimeState, program: Program)
    requires Prepared(s, program)
    ensures s.system != Error
  {
  }

  lemma ReadyWhenAllOff(p: Plant)
    requires Interlocked(p) && AllOff(p.store.outputs)
    ensures p.store.system != Manual && forall i | 0 <= i < |p.store.zones| :: p.store.zones[i].state != ZoneOpen
    ensures p.store.system == Ready || p.store.system == Error
  {
  }

  lemma CloseSucceeds(env: Environment, p: Plant, id: Text, program: Program)
    requires Succeeding(env) && Interlocked(p) && Prepared(p.store, program)
    requires var found := FindZone(p.store.zones, id);
             found.Some? && p.store.outputs[p.store.zones[found.value].output] == On
    ensures var (q, result) := ZoneOperations.CloseZone(env, p, id); result == Ok && Prepared(q.store, program)
  {
    hide ExecutionEvents, ZoneOperations.FaultZone, Prepared, Driven, FindZone, AllOff;
    var i := FindZone(p.store.zones, id).value;
    SystemOf(p.store, program);
    var q := ZoneOperations.CloseZone(env, p, id).0;
    PreparedStays(p.store, q.store, i, q.store.zones[i], program);
  }

  // ----- One phase per call -----

  lemma OpenCurrentZoneProgress(env: Environment, c: Controller)
    requires Succeeding(env) && Within(c) && AllOff(c.plant.store.outputs) && c.plant.store.master.state == MasterOpen
    requires c.program.Some? && c.plant.store.program.step < |c.program.value.steps| && Prepared(c.plant.store, c.program.value)
    requires c.plant.store.program.state == WaitingMaster || c.plant.store.program.state == RunningZone
    ensures var (d, result) := OpenCurrentZone(env, c);
            && result == Ok && SameProgram(c, d) && Prepared(d.plant.store, c.program.value)
            && d.plant.store.program.state == RunningZone && d.plant.store.program.step == c.plant.store.program.step && Watering(d)
  {
    hide Interlocked, Known, AllOff, FaultProgram, ZoneOperations.OpenZone, ExecutionEvents, FindZone;
    var step := c.program.value.steps[c.plant.store.program.step];
    assert Known(c.plant.store.zones, step.zone);
    OpenZoneMeans(env, c.plant, step.zone, step.duration);
    OpenSucceeds(env, c.plant, step.zone, step.duration, c.program.value);
  }

  lemma WaitingMasterProgress(env: Environment, c: Controller)
    requires Succeeding(env) && Going(c) && Deadline(env, c) && c.plant.store.program.state == WaitingMaster
    ensures var (d, result) := ProcessWaitingMaster(env, Hold(c));
            && result == Ok && Prepared(d.plant.store, c.program.value)
            && d.plant.store.program.state == RunningZone && d.plant.store.program.step == 0 && SameProgram(Hold(c), d) && Watering(d)
  {
    hide Interlocked, LockoutKept, AllOff, FaultProgram, OpenCurrentZone, Known, FindZone;
    var timed := CallProcessMaster(env, Hold(c)).0;
    ProcessMasterKept(env, c.plant);
    OpenCurrentZoneProgress(env, timed);
  }

  lemma RunningZoneProgress(env: Environment, c: Controller)
    requires Succeeding(env) && Going(c) && Deadline(env, c) && c.plant.store.program.state == RunningZone
    ensures var (d, result) := ProcessRunningZone(env, Hold(c)); var step := c.plant.store.program.step;
            && result == Ok && Prepared(d.plant.store, c.program.value) && SameProgram(Hold(c), d)
            && (if step + 1 < |c.program.value.steps|
                then d.plant.store.program.state == RunningZone && d.plant.store.program.step == step + 1 && Watering(d)
                else d.plant.store.program.state == WaitingPostDelay && d.plant.store.master.state == MasterOpen && AllOff(d.plant.store.outputs))
  {
    hide Interlocked, LockoutKept, AllOff, FaultProgram, OpenCurrentZone, Known, ZoneOperations.CloseZone, FindZone;
    var index := c.plant.store.program.step;
    var step := c.program.value.steps[index];
    TickKept(c.plant);
    var (closed, result) := CallCloseZone(env, Ticked(Hold(c)), step.zone);
    OnIsNotQuiescent(Tick(c.plant), c.plant.store.zones[FindZone(c.plant.store.zones, step.zone).value].output);
    CloseZoneMeans(env, Tick(c.plant), step.zone);
    CloseSucceeds(env, Tick(c.plant), step.zone, c.program.value);
    AdvanceProgress(env, closed);
  }

  lemma AdvanceProgress(env: Environment, c: Controller)
    requires Succeeding(env) && Within(c) && AllOff(c.plant.store.outputs) && c.plant.store.master.state == MasterOpen
    requires Consistent(c) && c.plant.store.program.state == RunningZone && Prepared(c.plant.store, c.program.value)
    ensures var (d, result) := Advance(env, c); var step := c.plant.store.program.step;
            && result == Ok && Prepared(d.plant.store, c.program.value) && SameProgram(c, d)
            && (if step + 1 < |c.program.value.steps|
                then d.plant.store.program.state == RunningZone && d.plant.store.program.step == step + 1 && Watering(d)
                else d.plant.store.program.state == WaitingPostDelay && d.plant.store.master.state == MasterOpen && AllOff(d.plant.store.outputs))
  {
    hide Interlocked, LockoutKept, AllOff, OpenCurrentZone, Known;
    var index := c.plant.store.program.step;
    var done := Emit(c, StepCompleted(Time(env, c), index, c.program.value.steps[index].zone));
    if index + 1 < |c.program.value.steps| {
      var moved := Ticked(WithStore(done, SetRunningZone(done.plant.store, index + 1, Time(env, done)).0));
      OnlyProgramKept(c.plant, moved.plant);
      OpenCurrentZoneProgress(env, moved);
    }
  }

  lemma ProcessProgress(env: Environment, c: Controller)
    requires Succeeding(env) && Going(c) && Deadline(env, c) && Active(c)
    ensures var (d, result) := ProcessProgram(env, c);
            && result == Ok && Going(d) && SameProgram(c, d) && Remaining(d) == Remaining(c) - 1
            && (Active(d) || d.plant.store.program.state == Completed)
  {
    hide ProcessWaitingMaster, ProcessRunningZone, ProcessPostDelay, Prepared, Interlocked, LockoutKept, AllOff, FindZone;
    ProcessKept(env, c);
    ProcessConsistent(env, c);
    match c.plant.store.program.state {
      case WaitingMaster => WaitingMasterProgress(env, c);
      case RunningZone => RunningZoneProgress(env, c);
      case WaitingPostDelay => PostDelayProgress(env, c);
    }
  }

  lemma PostDelayProgress(env: Environment, c: Controller)
    requires Succeeding(env) && Going(c) && Deadline(env, c) && c.plant.store.program.state == WaitingPostDelay
    ensures var (d, result) := ProcessPostDelay(env, Hold(c));
            result == Ok && Prepared(d.plant.store, c.program.value) && d.plant.store.program.state == Completed
  {
    hide Interlocked, AllOff, Known;
  }

  // ----- The whole program -----

  /** The delay of the master valve is also waited out outside the program's own calls. */
  lemma MasterTimeProgress(env: Environment, c: Controller)
    requires Going(c)
    ensures var d := Serve(env, c, ProcessMasterCall); Going(d) && SameProgram(c, d) && d.plant.store.program == c.plant.store.program
  {
    hide Interlocked, LockoutKept, AllOff, FindZone, Known;
    ProcessMasterKept(env, c.plant);
  }

  function ProcessCount(calls: seq<Call>): nat {
    if calls == [] then 0 else ProcessCount(calls[..|calls| - 1]) + if calls[|calls| - 1] == ProcessCall then 1 else 0
  }

  /**
   Every process call comes after the deadline of its phase, the time of the master valve is processed at any moment, and any
   other call is one that the state refuses.
   */
  predicate Unhindered(env: Environment, c: Controller, calls: seq<Call>)
    requires Consistent(c)
  {
    calls == [] ||
    var before, last := Run(env, c, calls[..|calls| - 1]), calls[|calls| - 1];
    && Unhindered(env, c, calls[..|calls| - 1])
    && if last == ProcessCall then Deadline(env, before) else last == ProcessMasterCall || Serve(env, before, last) == before
  }

  lemma {:induction false} CallsProgress(env: Environment, c: Controller, calls: seq<Call>)
    requires Succeeding(env) && Going(c) && Active(c) && Consistent(c)
    requires Unhindered(env, c, calls) && ProcessCount(calls) <= Remaining(c)
    ensures var d := Run(env, c, calls); Going(d) && SameProgram(c, d) && Remaining(d) == Remaining(c) - ProcessCount(calls)
  {
    hide Going, ProcessProgram, Consistent, Deadline;
    if calls != [] {
      var before, last := Run(env, c, calls[..|calls| - 1]), calls[|calls| - 1];
      CallsProgress(env, c, calls[..|calls| - 1]);
      if last == ProcessCall {
        ActiveWhileRemaining(before);
        ProcessProgress(env, before);
      } else if last == ProcessMasterCall {
        MasterTimeProgress(env, before);
      }
    }
  }

  lemma ActiveWhileRemaining(c: Controller)
    requires Going(c)
    ensures c.program.Some? && (Remaining(c) > 0 <==> Active(c)) && (!Active(c) ==> c.plant.store.program.state == Completed)
  {
    hide Interlocked, Prepared, Watering;
  }

  /** What the program service and its caller must find for a start to go ahead. */
  predicate Startable(c: Controller, program: Program, context: StartContext) {
    var s := c.plant.store;
    && Resting(c) && program.steps != [] && ContextValid(context) && Prepared(s, program) && AllOff(s.outputs)
    && (s.program.state == ProgramIdle || s.program.state == Completed || s.program.state == Aborted)
    && (s.master.state == MasterClosed || s.master.state == MasterFault)
  }

  /** A start of an idle controller with obliging drivers succeeds, also after a fault of the master valve. */
  lemma StartGoes(env: Environment, c: Controller, program: Program, context: StartContext)
    requires Succeeding(env) && Startable(c, program, context)
    ensures var (d, result) := StartProgram(env, c, program, context);
            && result == Ok && Going(d) && Active(d) && d.program == Some(program) && Remaining(d) == |program.steps| + 2
  {
    hide Interlocked, LockoutKept, AllOff, Known, PlannedDuration, ContextValid, Finish;
    StartKept(env, c, program, context);
    StartConsistent(env, c, program, context);
  }

  /**
   With drivers that succeed and zones known, enabled and idle, a program of n steps is COMPLETED after exactly n + 2 process
   calls, each made after its deadline, and active before that. The time of the master valve may be processed at any moment in
   between, and other calls may come in as long as the state refuses them.
   */
  lemma CompletesInExactly(env: Environment, c: Controller, program: Program, context: StartContext, calls: seq<Call>)
    requires Succeeding(env) && Startable(c, program, context)
    ensures var (started, result) := StartProgram(env, c, program, context);
            && result == Ok && Consistent(started)
            && (Unhindered(env, started, calls) && ProcessCount(calls) <= |program.steps| + 2 ==>
                var d := Run(env, started, calls);
                if ProcessCount(calls) < |program.steps| + 2 then Active(d) else d.plant.store.program.state == Completed)
  {
    hide Going, StartProgram, Prepared, Interlocked, AllOff, ContextValid, Unhindered, ProcessCount, Run;
    StartGoes(env, c, program, context);
    var started := StartProgram(env, c, program, context).0;
    StartConsistent(env, c, program, context);
    if Unhindered(env, started, calls) && ProcessCount(calls) <= |program.steps| + 2 {
      CallsProgress(env, started, calls);
      ActiveWhileRemaining(Run(env, started, calls));
    }
  }
}
