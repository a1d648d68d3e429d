/** What the program service answers, and how the answer, the state and the last event belong together. */
module ProgramAnswers {
  import opened Bytes
  import opened Common
  import opened RuntimeStates
  import opened Plants
  import opened ProgramOperations
  import opened RunRecords
  import opened ServiceOutcomes
  import ZoneOperations
  import MasterOperations

  predicate InProgress(state: ProgramState) {
    state in {WaitingMaster, RunningZone, WaitingPostDelay}
  }

  /** A manual start names no schedule, a scheduled one names one. */
  predicate NamesSchedule(context: StartContext) {
    if context.origin == ManualOrigin then context.schedule == None
    else context.schedule.Some? && |context.schedule.value| > 0
  }

  function Saturated(total: nat): u32 {
    if total <= 0xffff_ffff then total else 0xffff_ffff
  }

  /** How a program ended: the state and the event that reports it, the last of all. */
  predicate EndedIn(d: Controller, state: ProgramState, result: ExecutionResult) {
    && d.plant.store.program.state == state && |d.plant.events| > 0
    && var last := d.plant.events[|d.plant.events| - 1]; last.Terminated? && last.result == result
  }

  /**
   A start is refused without a trace while a program is in progress, without steps, or with a context that does not fit. After a
   fault it is refused too, but the service then holds the new program. Any other start is published with its planned duration, and
   goes on or ends in FAULT as the master valve opens or not.
   */
  lemma StartAnswers(env: Environment, c: Controller, program: Program, context: StartContext)
    requires !c.locks.programs && !c.locks.master
    ensures var (d, result) := StartProgram(env, c, program, context); var m := c.plant.store.master.state;
            var planned := Saturated(Total(program.steps) + program.postDelay);
            var started := c.plant.events + [Started(env.clock(c.plant.ticks), program, planned, context)];
            if |program.steps| == 0 || !NamesSchedule(context) || InProgress(c.plant.store.program.state) then (d, result) == (c, Rejected)
            else if c.plant.store.program.state == ProgramFault then
              (d, result) == (c.(program := Some(program), context := context), InvalidState)
            else
              && d.program == Some(program) && d.context == context && d.locks == c.locks
              && result == (if m in {MasterOpening, MasterOpen, MasterClosing} then InvalidState else env.valve(c.plant.valveCalls))
              && (if result == Ok
                  then d.plant.store.program == ProgramRuntime(WaitingMaster, 0, 0) && d.plant.store.master.state == MasterOpening &&
                       d.plant.events == started
                  else EndedIn(d, ProgramFault, ExecutionFault) && d.plant.events[..|d.plant.events| - 1] == started)
  {
    hide MasterOperations.OpenMaster, PlannedDuration, Total;
    PlannedIsTheSum(program);
    assert ContextValid(context) <==> NamesSchedule(context);
    if ContextValid(context) && RuntimeStates.BeginProgram(c.plant.store).1 == Ok {
      var store := RuntimeStates.BeginProgram(c.plant.store).0;
      var holding := Hold(WithStore(c, store)).(program := Some(program), context := context);
      OpenMasterExactly(env, Emit(holding, Started(Time(env, holding), program, PlannedDuration(program), context)).plant);
    }
  }

  lemma FaultEnds(env: Environment, c: Controller)
    ensures EndedIn(FaultProgram(env, c), ProgramFault, ExecutionFault) && FaultProgram(env, c).locks == c.locks
  {
    hide MasterOperations.CloseMaster;
  }

  lemma OpenCurrentZoneAnswers(env: Environment, c: Controller)
    requires c.program.Some? && c.plant.store.program.step < |c.program.value.steps|
    requires c.plant.store.program.state in {WaitingMaster, RunningZone}
    ensures var (d, result) := OpenCurrentZone(env, c);
            && d.locks == c.locks
            && (if result == Ok then d.plant.store.program.state == RunningZone else EndedIn(d, ProgramFault, ExecutionFault))
  {
    hide FaultProgram, ZoneOperations.OpenZone;
    var step := c.program.value.steps[c.plant.store.program.step];
    FaultEnds(env, CallOpenZone(env, c, step.zone, step.duration).0);
  }

  lemma WaitingMasterAnswers(env: Environment, c: Controller)
    requires Consistent(c) && c.plant.store.program.state == WaitingMaster
    ensures var (d, result) := ProcessWaitingMaster(env, c);
            && d.locks == c.locks
            && (if result == Ok then d.plant.store.program.state in {WaitingMaster, RunningZone} else EndedIn(d, ProgramFault, ExecutionFault))
  {
    hide FaultProgram, OpenCurrentZone, MasterOperations.ProcessMaster;
    var timed := CallProcessMaster(env, c).0;
    FaultEnds(env, timed);
    OpenCurrentZoneAnswers(env, timed);
  }

  lemma RunningZoneAnswers(env: Environment, c: Controller)
    requires Consistent(c) && c.plant.store.program.state == RunningZone
    ensures var (d, result) := ProcessRunningZone(env, c);
            && d.locks == c.locks
            && (if result == Ok then d.plant.store.program.state in {RunningZone, WaitingPostDelay}
                else EndedIn(d, ProgramFault, ExecutionFault))
  {
    hide FaultProgram, Advance, ZoneOperations.CloseZone;
    var closed := CallCloseZone(env, Ticked(c), c.program.value.steps[c.plant.store.program.step].zone).0;
    FaultEnds(env, closed);
    AdvanceAnswers(env, closed);
  }

  lemma AdvanceAnswers(env: Environment, c: Controller)
    requires Consistent(c) && c.plant.store.program.state == RunningZone
    ensures var (d, result) := Advance(env, c);
            && d.locks == c.locks
            && (if result == Ok then d.plant.store.program.state in {RunningZone, WaitingPostDelay}
                else EndedIn(d, ProgramFault, ExecutionFault))
  {
    hide OpenCurrentZone;
    var index := c.plant.store.program.step;
    var done := Emit(c, StepCompleted(Time(env, c), index, c.program.value.steps[index].zone));
    if index + 1 < |c.program.value.steps| {
      OpenCurrentZoneAnswers(env, Ticked(WithStore(done, SetRunningZone(done.plant.store, index + 1, Time(env, done)).0)));
    }
  }

  /**
   A process call answers OK exactly if the program goes on, and any other answer ended it in FAULT; only at the end of the final delay
   it is COMPLETED whatever the master valve answers.
   */
  lemma ProcessAnswers(env: Environment, c: Controller)
    requires Consistent(c) && !c.locks.programs
    ensures var (d, result) := ProcessProgram(env, c); var before, after := c.plant.store.program.state, d.plant.store.program.state;
            && (!InProgress(before) ==> (d, result) == (c, Rejected))
            && (before in {WaitingMaster, RunningZone} ==>
                if result == Ok then InProgress(after) else EndedIn(d, ProgramFault, ExecutionFault))
            && (before == WaitingPostDelay ==>
                (after == WaitingPostDelay && result == Ok) || EndedIn(d, Completed, ExecutionCompleted))
            && d.locks == c.locks
  {
    hide ProcessWaitingMaster, ProcessRunningZone, MasterOperations.CloseMaster;
    if Active(c) {
      match c.plant.store.program.state
      case WaitingMaster => WaitingMasterAnswers(env, Hold(c));
      case RunningZone => RunningZoneAnswers(env, Hold(c));
      case _ =>
    }
  }

  /** An abort answers OK exactly if the program ended as ABORTED; otherwise it ended in FAULT. */
  lemma AbortAnswers(env: Environment, c: Controller)
    requires Consistent(c) && !c.locks.programs
    ensures var (d, result) := AbortProgram(env, c);
            && d.locks == c.locks
            && if !InProgress(c.plant.store.program.state) then (d, result) == (c, Rejected)
               else if result == Ok then EndedIn(d, Aborted, ExecutionAborted)
               else EndedIn(d, ProgramFault, ExecutionFault)
  {
    hide MasterOperations.CloseMaster, ZoneOperations.CloseZone;
  }

  /** What the master valve answers when it is told to close. */
  function ValveAnswer(env: Environment, p: Plant): IrrigationResult {
    if p.store.master.state !in {MasterOpening, MasterOpen} || exists o: OutputIndex :: p.store.outputs[o] != Off then InvalidState
    else env.valve(p.valveCalls)
  }

  /**
   Where the answer of a process call comes from: a faulted valve while the program waits for it, the opening of the zone of a step,
   the closing of the zone of the step that is over, or the closing of the valve at the end of the final delay; otherwise it is OK.
   */
  lemma ProcessAnswersFrom(env: Environment, c: Controller)
    requires Consistent(c) && c.locks == Locks(false, false, false) && InProgress(c.plant.store.program.state)
    ensures var result, s := ProcessProgram(env, c).1, c.plant.store;
            var step, now := c.program.value.steps[s.program.step], env.clock(c.plant.ticks);
            var later := c.plant.(ticks := c.plant.ticks + 1);
            match s.program.state
            case WaitingMaster =>
              var timed := MasterOperations.ProcessMaster(env, c.plant).0;
              result == (if s.master.state == MasterFault then InvalidState
                         else if timed.store.master.state == MasterOpen
                         then ZoneOperations.OpenZone(env, timed, step.zone, step.duration).1 else Ok)
            case RunningZone =>
              if Since(now, s.program.startedAt) < step.duration then result == Ok
              else
                var (closed, answer) := ZoneOperations.CloseZone(env, later, step.zone);
                && (answer != Ok ==> result == answer)
                && (answer == Ok && s.program.step + 1 == |c.program.value.steps| ==> result == Ok)
            case WaitingPostDelay =>
              result == if Since(now, s.program.startedAt) < c.program.value.postDelay then Ok else ValveAnswer(env, later)
  {
    hide ZoneOperations.OpenZone, ZoneOperations.CloseZone, FaultProgram, MasterOperations.CloseMaster, ExecutionEvents;
    var held := Hold(c);
    ProcessMasterExactly(env, c.plant);
    CloseMasterExactly(env, Ticked(held).plant);
    if c.plant.store.program.state == WaitingMaster {
      var step, timed := c.program.value.steps[c.plant.store.program.step], CallProcessMaster(env, held).0;
      OpenAnswer(env, timed);
    }
  }

  lemma OpenAnswer(env: Environment, c: Controller)
    requires c.program.Some? && c.plant.store.program.step < |c.program.value.steps| && !c.locks.zones
    requires c.plant.store.program.state in {WaitingMaster, RunningZone}
    ensures var step := c.program.value.steps[c.plant.store.program.step];
            OpenCurrentZone(env, c).1 == ZoneOperations.OpenZone(env, c.plant, step.zone, step.duration).1
  {
    hide ZoneOperations.OpenZone, FaultProgram;
  }

  /** Where the answer of an abort comes from: the closing of a running zone, and, if that went well, of a valve that is not closed. */
  lemma AbortAnswersFrom(env: Environment, c: Controller)
    requires Consistent(c) && c.locks == Locks(false, false, false) && InProgress(c.plant.store.program.state)
    ensures var s := c.plant.store;
            var (stopped, answer) :=
              if s.program.state == RunningZone then ZoneOperations.CloseZone(env, c.plant, c.program.value.steps[s.program.step].zone)
              else (c.plant, Ok);
            AbortProgram(env, c).1 ==
              if answer != Ok then answer else if stopped.store.master.state == MasterClosed then Ok else ValveAnswer(env, stopped)
  {
    hide ZoneOperations.CloseZone, MasterOperations.CloseMaster, ZoneOperations.ZoneFrame;
    var s := c.plant.store;
    CloseMasterExactly(env, c.plant);
    if s.program.state == RunningZone {
      CloseMasterExactly(env, ZoneOperations.CloseZone(env, c.plant, c.program.value.steps[s.program.step].zone).0);
    }
  }
}
