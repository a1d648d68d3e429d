/** What each operation of the program service does to the controller. */
module ProgramOperations {
  import opened Bytes
  import opened Common
  import opened RuntimeStates
  import opened Plants
  import ZoneOperations
  import MasterOperations

  /** The try-locks of the three services. */
  datatype Locks = Locks(zones: bool, master: bool, programs: bool)

  datatype Controller = Controller(plant: Plant, program: Option<Program>, context: StartContext, locks: Locks)

  predicate Active(c: Controller) {
    var state := c.plant.store.program.state;
    state == WaitingMaster || state == RunningZone || state == WaitingPostDelay
  }

  /** An active program is the one the service holds, at one of its steps. */
  predicate Consistent(c: Controller) {
    Active(c) ==> c.program.Some? && c.plant.store.program.step < |c.program.value.steps|
  }

  function StepsDuration(steps: seq<Step>): nat {
    if steps == [] then 0 else StepsDuration(steps[..|steps| - 1]) + steps[|steps| - 1].duration
  }

  /** The steps and the delay after them, saturated at 32 bits. */
  function PlannedDuration(program: Program): u32 {
    var total := program.postDelay + StepsDuration(program.steps);
    if total > U32_MAX then U32_MAX else total
  }

  predicate ContextValid(context: StartContext) {
    match context.origin
    case ManualOrigin => context.schedule.None?
    case ScheduledOrigin => context.schedule.Some? && context.schedule.value != []
  }

  // ----- Calls of the other services, each behind its lock -----

  function CallOpenZone(env: Environment, c: Controller, id: Text, duration: u32): (Controller, IrrigationResult) {
    if c.locks.zones then (c, Rejected)
    else var (plant, result) := ZoneOperations.OpenZone(env, c.plant, id, duration); (c.(plant := plant), result)
  }

  function CallCloseZone(env: Environment, c: Controller, id: Text): (Controller, IrrigationResult) {
    if c.locks.zones then (c, Rejected)
    else var (plant, result) := ZoneOperations.CloseZone(env, c.plant, id); (c.(plant := plant), result)
  }

  function CallOpenMaster(env: Environment, c: Controller): (Controller, IrrigationResult) {
    if c.locks.master then (c, Rejected)
    else var (plant, result) := MasterOperations.OpenMaster(env, c.plant); (c.(plant := plant), result)
  }

  function CallProcessMaster(env: Environment, c: Controller): (Controller, IrrigationResult) {
    if c.locks.master then (c, Rejected)
    else var (plant, result) := MasterOperations.ProcessMaster(env, c.plant); (c.(plant := plant), result)
  }

  function CallCloseMaster(env: Environment, c: Controller): (Controller, IrrigationResult) {
    if c.locks.master then (c, Rejected)
    else var (plant, result) := MasterOperations.CloseMaster(env, c.plant); (c.(plant := plant), result)
  }

  // ----- Events and small steps -----

  function Emit(c: Controller, event: Event): Controller {
    c.(plant := c.plant.(events := c.plant.events + [event], ticks := c.plant.ticks + 1))
  }

  function Time(env: Environment, c: Controller): u64 {
    Now(env, c.plant)
  }

  function WithStore(c: Controller, store: RuntimeState): Controller {
    c.(plant := c.plant.(store := store))
  }

  function Ticked(c: Controller): Controller {
    c.(plant := Tick(c.plant))
  }

  function Finish(env: Environment, c: Controller, state: ProgramState, result: ExecutionResult): Controller {
    Emit(WithStore(c, SetTerminal(c.plant.store, state).0), Terminated(Time(env, c), result))
  }

  function FaultProgram(env: Environment, c: Controller): Controller {
    Finish(env, if CloseEligible(c.plant.store) then CallCloseMaster(env, c).0 else c, ProgramFault, ExecutionFault)
  }

  function OpenCurrentZone(env: Environment, c: Controller): (r: (Controller, IrrigationResult))
    requires c.program.Some? && c.plant.store.program.step < |c.program.value.steps|
  {
    var index := c.plant.store.program.step;
    var step := c.program.value.steps[index];
    var (open, result) := CallOpenZone(env, c, step.zone, step.duration);
    if result != Ok then (FaultProgram(env, open), result)
    else
      var (store, recorded) := SetRunningZone(open.plant.store, index, Time(env, open));
      var running := Ticked(WithStore(open, store));
      (if recorded == Ok then Emit(running, StepStarted(Time(env, running), index, step.zone)) else running, recorded)
  }

  function Hold(c: Controller): Controller {
    c.(locks := c.locks.(programs := true))
  }

  function Release(c: Controller): Controller {
    c.(locks := c.locks.(programs := false))
  }

  // ----- The operations -----

  /** A start from the lock on; whether a program is active was tested before. */
  function StartLocked(env: Environment, c: Controller, program: Program, context: StartContext): (Controller, IrrigationResult) {
    var (store, result) := RuntimeStates.BeginProgram(c.plant.store);
    var holding := Hold(WithStore(c, store)).(program := Some(program), context := context);
    if result != Ok then (Release(holding), result)
    else
      var started := Emit(holding, Started(Time(env, holding), program, PlannedDuration(program), context));
      var (opening, confirmed) := CallOpenMaster(env, started);
      if confirmed != Ok then (Release(Finish(env, opening, ProgramFault, ExecutionFault)), confirmed) else (Release(opening), Ok)
  }

  function StartProgram(env: Environment, c: Controller, program: Program, context: StartContext): (Controller, IrrigationResult) {
    if program.steps == [] || !ContextValid(context) || Active(c) || c.locks.programs then (c, Rejected)
    else StartLocked(env, c, program, context)
  }

  function ProcessWaitingMaster(env: Environment, c: Controller): (Controller, IrrigationResult)
    requires Consistent(c) && c.plant.store.program.state == WaitingMaster
  {
    var (timed, result) := CallProcessMaster(env, c);
    if result != Ok then (FaultProgram(env, timed), result)
    else if timed.plant.store.master.state == MasterOpen then OpenCurrentZone(env, timed)
    else if timed.plant.store.master.state == MasterFault then (FaultProgram(env, timed), InvalidState)
    else (timed, Ok)
  }

  /** The zone of the step is closed: go on to the next step, or to the delay after the last one. */
  function Advance(env: Environment, c: Controller): (Controller, IrrigationResult)
    requires c.program.Some? && c.plant.store.program.step < |c.program.value.steps|
  {
    var index := c.plant.store.program.step;
    var done := Emit(c, StepCompleted(Time(env, c), index, c.program.value.steps[index].zone));
    if index + 1 < |c.program.value.steps| then
      var (store, recorded) := SetRunningZone(done.plant.store, index + 1, Time(env, done));
      OpenCurrentZone(env, Ticked(WithStore(done, store)))
    else
      var (store, result) := SetWaitingPostDelay(done.plant.store, Time(env, done));
      (Ticked(WithStore(done, store)), result)
  }

  function ProcessRunningZone(env: Environment, c: Controller): (Controller, IrrigationResult)
    requires Consistent(c) && c.plant.store.program.state == RunningZone
  {
    var step := c.program.value.steps[c.plant.store.program.step];
    if Elapsed(Time(env, c), c.plant.store.program.startedAt) < step.duration then (Ticked(c), Ok)
    else
      var (closed, result) := CallCloseZone(env, Ticked(c), step.zone);
      if result != Ok then (FaultProgram(env, closed), result) else Advance(env, closed)
  }

  function ProcessPostDelay(env: Environment, c: Controller): (Controller, IrrigationResult)
    requires Consistent(c) && c.plant.store.program.state == WaitingPostDelay
  {
    if Elapsed(Time(env, c), c.plant.store.program.startedAt) < c.program.value.postDelay then (Ticked(c), Ok)
    else
      var (closed, result) := CallCloseMaster(env, Ticked(c));
      (Finish(env, closed, Completed, ExecutionCompleted), result)
  }

  function ProcessProgram(env: Environment, c: Controller): (Controller, IrrigationResult)
    requires Consistent(c)
  {
    if !Active(c) || c.locks.programs then (c, Rejected)
    else
      var held := Hold(c);
      var (done, result) :=
        match c.plant.store.program.state
        case WaitingMaster => ProcessWaitingMaster(env, held)
        case RunningZone => ProcessRunningZone(env, held)
        case WaitingPostDelay => ProcessPostDelay(env, held);
      (Release(done), result)
  }

  /** An abort from the lock on; whether a program is active was tested before. */
  function AbortLocked(env: Environment, c: Controller): (Controller, IrrigationResult)
    requires Consistent(c)
  {
    var held := Hold(c);
    var (stopped, result) :=
      if c.plant.store.program.state == RunningZone
      then CallCloseZone(env, held, c.program.value.steps[c.plant.store.program.step].zone)
      else (held, Ok);
    var (shut, final) :=
      if result == Ok && stopped.plant.store.master.state != MasterClosed then CallCloseMaster(env, stopped) else (stopped, result);
    (Release(if final == Ok then Finish(env, shut, Aborted, ExecutionAborted) else Finish(env, shut, ProgramFault, ExecutionFault)),
     final)
  }

  function AbortProgram(env: Environment, c: Controller): (Controller, IrrigationResult)
    requires Consistent(c)
  {
    if !Active(c) || c.locks.programs then (c, Rejected) else AbortLocked(env, c)
  }
}

/** The program service, which drives the zone and master valve services. */
module ProgramServices {
  import opened Bytes
  import opened Common
  import opened RuntimeStates
  import opened Plants
  import opened Boards
  import opened ZoneServices
  import opened MasterValveServices
  import opened ProgramOperations
  import ZoneOperations
  import MasterOperations

  class ProgramService {
    const board: Board
    const zones: ZoneService
    const master: MasterValveService
    var program: Option<Program>
    var context: StartContext
    var locked: bool

    constructor (board: Board, zones: ZoneService, master: MasterValveService)
      requires zones.board == board && master.board == board
      ensures this.board == board && this.zones == zones && this.master == master && Wired()
      ensures !locked && program == None
    {
      this.board, this.zones, this.master := board, zones, master;
      program, context, locked := None, StartContext(ManualOrigin, None), false;
    }

    predicate Wired() {
      zones.board == board && master.board == board
    }

    function View(): Controller
      reads this, zones, master, board.store, board.outputs, board.valve, board.clock, board.bus
    {
      Controller(board.Plant(), program, context, Locks(zones.locked, master.locked, locked))
    }

    method PlannedDurationMs(program: Program) returns (duration: u32)
      ensures duration == PlannedDuration(program)
    {
      var total: nat := program.postDelay;
      for index := 0 to |program.steps|
        invariant total == program.postDelay + StepsDuration(program.steps[..index])
      {
        assert program.steps[..index + 1][..index] == program.steps[..index];
        total := total + program.steps[index].duration;
      }
      assert program.steps[..|program.steps|] == program.steps;
      return if total > U32_MAX then U32_MAX else total;
    }

    method IsActive() returns (active: bool)
      ensures active == Active(View())
    {
      var state := board.store.current.program.state;
      active := state == WaitingMaster || state == RunningZone || state == WaitingPostDelay;
    }

    /** Publishes an event with the time of its publication. */
    method PublishExecutionEvent(draft: Event)
      requires Wired()
      modifies board.clock, board.bus
      ensures View() == Emit(old(View()), draft.(time := Time(board.Env(), old(View()))))
    {
      var now := board.clock.NowMs();
      board.bus.Publish(draft.(time := now));
    }

    method Finish(state: ProgramState, result: ExecutionResult)
      requires Wired()
      modifies board.store, board.clock, board.bus
      ensures View() == ProgramOperations.Finish(board.Env(), old(View()), state, result)
    {
      var ignored := board.store.SetTerminal(state);
      PublishExecutionEvent(Terminated(0, result));
    }

    method Fault()
      requires Wired()
      modifies master, board.store, board.valve, board.clock, board.bus
      ensures View() == FaultProgram(board.Env(), old(View()))
    {
      hide ProgramOperations.Finish, CloseEligible;
      var eligible := board.store.MasterCloseEligible();
      if eligible { var ignored := master.Close(); }
      Finish(ProgramFault, ExecutionFault);
    }

    method OpenCurrentZone() returns (result: IrrigationResult)
      requires Wired() && program.Some? && board.store.current.program.step < |program.value.steps|
      modifies zones, master, board.store, board.outputs, board.valve, board.clock, board.bus
      ensures (View(), result) == ProgramOperations.OpenCurrentZone(board.Env(), old(View()))
    {
      hide ZoneOperations.OpenZone, FaultProgram;
      var index := board.store.current.program.step;
      var step := program.value.steps[index];
      result := zones.Open(step.zone, step.duration);
      if result != Ok {
        Fault();
        return;
      }
      var now := board.clock.NowMs();
      result := board.store.SetRunningZone(index, now);
      if result == Ok {
        PublishExecutionEvent(StepStarted(0, index, step.zone));
      }
    }

    /** Every path releases the lock; a start that is refused at the door changes nothing. */
    method Start(program: Program, context: StartContext) returns (result: IrrigationResult)
      requires Wired()
      modifies this, master, board.store, board.valve, board.clock, board.bus
      ensures (View(), result) == ProgramOperations.StartProgram(board.Env(), old(View()), program, context)
    {
      hide ContextValid, ProgramOperations.StartLocked;
      var active := IsActive();
      if program.steps == [] || !ContextValid(context) || active || locked { return Rejected; }
      result := StartLocked(program, context);
    }

    /** A start from the lock on, which the caller found free. */
    method StartLocked(program: Program, context: StartContext) returns (result: IrrigationResult)
      requires Wired()
      modifies this, master, board.store, board.valve, board.clock, board.bus
      ensures (View(), result) == ProgramOperations.StartLocked(board.Env(), old(View()), program, context)
    {
      hide ProgramOperations.Finish, PlannedDuration, StepsDuration, MasterOperations.OpenMaster, MasterOperations.MasterFrame,
           RuntimeStates.BeginProgram;
      locked := true;
      this.program, this.context := Some(program), context;
      result := board.store.BeginProgram();
      if result != Ok {
        locked := false;
        return;
      }
      var planned := PlannedDurationMs(program);
      PublishExecutionEvent(Started(0, program, planned, context));
      result := master.Open();
      if result != Ok { Finish(ProgramFault, ExecutionFault); }
      locked := false;
    }

    method Process() returns (result: IrrigationResult)
      requires Wired() && Consistent(View())
      modifies this, zones, master, board.store, board.outputs, board.valve, board.clock, board.bus
      ensures (View(), result) == ProcessProgram(board.Env(), old(View()))
    {
      hide ProcessWaitingMaster, ProcessRunningZone, ProcessPostDelay;
      var active := IsActive();
      if !active || locked { return Rejected; }
      locked := true;
      match board.store.current.program.state {
        case WaitingMaster => result := WhileWaitingMaster();
        case RunningZone => result := WhileRunningZone();
        case WaitingPostDelay => result := WhilePostDelay();
      }
      locked := false;
    }

    method WhileWaitingMaster() returns (result: IrrigationResult)
      requires Wired() && Consistent(View()) && board.store.current.program.state == WaitingMaster
      modifies zones, master, board.store, board.outputs, board.valve, board.clock, board.bus
      ensures (View(), result) == ProcessWaitingMaster(board.Env(), old(View()))
    {
      hide FaultProgram, ProgramOperations.OpenCurrentZone;
      result := master.ProcessTime();
      if result != Ok {
        Fault();
      } else if board.store.current.master.state == MasterOpen {
        result := OpenCurrentZone();
      } else if board.store.current.master.state == MasterFault {
        Fault();
        result := InvalidState;
      }
    }

    method WhileRunningZone() returns (result: IrrigationResult)
      requires Wired() && Consistent(View()) && board.store.current.program.state == RunningZone
      modifies zones, master, board.store, board.outputs, board.valve, board.clock, board.bus
      ensures (View(), result) == ProcessRunningZone(board.Env(), old(View()))
    {
      hide FaultProgram, Advance, ZoneOperations.CloseZone;
      var runtime := board.store.current.program;
      var step := program.value.steps[runtime.step];
      var now := board.clock.NowMs();
      if Elapsed(now, runtime.startedAt) < step.duration { return Ok; }
      result := zones.Close(step.zone);
      if result != Ok {
        Fault();
        return;
      }
      result := AdvanceStep();
    }

    method AdvanceStep() returns (result: IrrigationResult)
      requires Wired() && program.Some? && board.store.current.program.step < |program.value.steps|
      modifies zones, master, board.store, board.outputs, board.valve, board.clock, board.bus
      ensures (View(), result) == Advance(board.Env(), old(View()))
    {
      hide ProgramOperations.OpenCurrentZone;
      var index := board.store.current.program.step;
      PublishExecutionEvent(StepCompleted(0, index, program.value.steps[index].zone));
      var now := board.clock.NowMs();
      if index + 1 < |program.value.steps| {
        var ignored := board.store.SetRunningZone(index + 1, now);
        result := OpenCurrentZone();
      } else {
        result := board.store.SetWaitingPostDelay(now);
      }
    }

    method WhilePostDelay() returns (result: IrrigationResult)
      requires Wired() && Consistent(View()) && board.store.current.program.state == WaitingPostDelay
      modifies master, board.store, board.valve, board.clock, board.bus
      ensures (View(), result) == ProcessPostDelay(board.Env(), old(View()))
    {
      hide ProgramOperations.Finish;
      var now := board.clock.NowMs();
      if Elapsed(now, board.store.current.program.startedAt) < program.value.postDelay { return Ok; }
      result := master.Close();
      Finish(Completed, ExecutionCompleted);
    }

    method Abort() returns (result: IrrigationResult)
      requires Wired() && Consistent(View())
      modifies this, zones, master, board.store, board.outputs, board.valve, board.clock, board.bus
      ensures (View(), result) == AbortProgram(board.Env(), old(View()))
    {
      hide ProgramOperations.AbortLocked;
      var active := IsActive();
      if !active || locked { return Rejected; }
      result := AbortLocked();
    }

    /** An abort from the lock on, which the caller found free. */
    method AbortLocked() returns (result: IrrigationResult)
      requires Wired() && Consistent(View())
      modifies this, zones, master, board.store, board.outputs, board.valve, board.clock, board.bus
      ensures (View(), result) == ProgramOperations.AbortLocked(board.Env(), old(View()))
    {
      hide ProgramOperations.Finish, ZoneOperations.CloseZone, MasterOperations.CloseMaster, MasterOperations.MasterFrame;
      locked := true;
      result := Ok;
      var runtime := board.store.current.program;
      if runtime.state == RunningZone { result := zones.Close(program.value.steps[runtime.step].zone); }
      if result == Ok && board.store.current.master.state != MasterClosed { result := master.Close(); }
      if result == Ok { Finish(Aborted, ExecutionAborted); } else { Finish(ProgramFault, ExecutionFault); }
      locked := false;
    }
  }
}
