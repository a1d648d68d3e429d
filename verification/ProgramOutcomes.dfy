/** How a program ends: what the call that ends it leaves behind, and exactly when that is safe. */
module ProgramOutcomes {
  import opened Bytes
  import opened Common
  import opened RuntimeStates
  import opened Plants
  import opened ProgramOperations
  import opened Interlock
  import opened ServiceRuns
  import opened InterlockRuns
  import ZoneOperations
  import MasterOperations

  predicate Quiescent(p: Plant) {
    AllOff(p.store.outputs) || SomeUnknown(p.store.outputs)
  }

  /** Everything is off and the valve closed or at fault, or some output can no longer be told. */
  predicate Settled(p: Plant) {
    || (AllOff(p.store.outputs) && (p.store.master.state == MasterClosed || p.store.master.state == MasterFault))
    || SomeUnknown(p.store.outputs)
  }

  /** The zone of the current step is the one whose output is on. */
  predicate Watering(c: Controller)
    requires c.program.Some? && c.plant.store.program.step < |c.program.value.steps|
  {
    var found := FindZone(c.plant.store.zones, c.program.value.steps[c.plant.store.program.step].zone);
    found.Some? && c.plant.store.outputs[c.plant.store.zones[found.value].output] == On
  }

  /** No output is on, except that of the zone a running program is at. */
  predicate Alone(c: Controller)
    requires Consistent(c)
  {
    Quiescent(c.plant) || (c.plant.store.program.state == RunningZone && Watering(c))
  }

  /** Between calls: what every run keeps. */
  predicate Resting(c: Controller) {
    Consistent(c) && Interlocked(c.plant) && c.locks == Locks(false, false, false)
  }

  /** Inside an operation the program service holds its own lock. */
  predicate Within(c: Controller) {
    Interlocked(c.plant) && c.locks == Locks(false, false, true)
  }

  /** The running program's own zone is on and nothing else; outside the steps no output is on. */
  predicate Undisturbed(c: Controller)
    requires Consistent(c)
  {
    if c.plant.store.program.state == RunningZone then Watering(c) else Quiescent(c.plant)
  }

  /** Exactly when an abort settles everything: it gives up, leaving the valve as it is, where the zone of its step cannot be closed. */
  predicate AbortSettles(c: Controller)
    requires Consistent(c)
  {
    if c.plant.store.program.state == RunningZone then
      var found := FindZone(c.plant.store.zones, c.program.value.steps[c.plant.store.program.step].zone);
      (found.Some? && Busy(c.plant.store.zones[found.value])) || Settled(c.plant)
    else Quiescent(c.plant)
  }

  /** What a call of a program leaves: if it ended, all is settled exactly when `settles`; if not, only its own zone is on. */
  predicate Outcome(d: Controller, settles: bool) {
    && Consistent(d)
    && (!Active(d) ==> (Settled(d.plant) <==> settles))
    && (settles ==> Undisturbed(d))
    && (d.plant.store.program.state == Aborted ==> d.plant.store.master.state == MasterClosed)
  }

  // ----- Pieces -----

  lemma NeverClosing(p: Plant)
    requires Interlocked(p)
    ensures p.store.master.state != MasterClosing
  {
  }

  lemma OnIsOpen(p: Plant)
    requires Interlocked(p) && p.store.master.state != MasterOpen
    ensures Quiescent(p)
  {
    if !AllOff(p.store.outputs) {
      var o: OutputIndex :| p.store.outputs[o] != Off;
      assert p.store.outputs[o] == Unknown;
    }
  }

  /** Closing the valve when that is possible settles a plant exactly when no output is on. */
  lemma CloseMasterSettles(env: Environment, p: Plant)
    requires Interlocked(p)
    ensures var (q, result) := MasterOperations.CloseMaster(env, p);
            && q.store == p.store.(master := q.store.master)
            && (Settled(q) <==> Quiescent(p))
            && (result == Ok ==> q.store.master.state == MasterClosed)
  {
    hide StoreSafe, ManualMeansOpen, RelaysRecorded, AllOff, FaultRecorded;
    NeverClosing(p);
  }

  lemma FinishOutcome(env: Environment, c: Controller, state: ProgramState, result: ExecutionResult, alone: bool)
    requires Settled(c.plant) <==> alone
    requires state == Completed || state == ProgramFault || (state == Aborted && c.plant.store.master.state == MasterClosed)
    ensures Outcome(Release(Finish(env, c, state, result)), alone)
  {
    hide AllOff;
  }

  lemma FaultOutcome(env: Environment, c: Controller)
    requires Within(c)
    ensures Outcome(Release(FaultProgram(env, c)), Quiescent(c.plant))
  {
    hide Interlocked, AllOff, MasterOperations.CloseMaster, Finish, Outcome, SomeUnknown;
    NeverClosing(c.plant);
    var shut := if CloseEligible(c.plant.store) then CallCloseMaster(env, c).0 else c;
    CloseMasterSettles(env, c.plant);
    FinishOutcome(env, shut, ProgramFault, ExecutionFault, Quiescent(c.plant));
  }

  lemma OpenZoneMeans(env: Environment, p: Plant, id: Text, duration: u32)
    requires Interlocked(p)
    ensures var (q, result) := ZoneOperations.OpenZone(env, p, id, duration);
            && Interlocked(q)
            && (result == Ok ==>
                && AllOff(p.store.outputs) && FindZone(q.store.zones, id).Some?
                && q.store.outputs[q.store.zones[FindZone(q.store.zones, id).value].output] == On)
            && (result != Ok ==> (Quiescent(q) <==> Quiescent(p)))
  {
    hide Interlocked, LockoutKept, ZoneOperations.Actuate, FindZone, ExecutionEvents, AllOff;
    OpenZoneKeeps(env, p, id, duration);
    SameFound(p.store.zones, ZoneOperations.OpenZone(env, p, id, duration).0.store.zones, id);
  }

  lemma SameFound(a: seq<ZoneRuntime>, b: seq<ZoneRuntime>, id: Text)
    requires ZoneOperations.SameZones(a, b)
    ensures FindZone(a, id) == FindZone(b, id)
  {
  }

  lemma OpenCurrentZoneOutcome(env: Environment, c: Controller)
    requires Within(c) && c.program.Some? && c.plant.store.program.step < |c.program.value.steps|
    requires c.plant.store.program.state == WaitingMaster || c.plant.store.program.state == RunningZone
    ensures Outcome(Release(OpenCurrentZone(env, c).0), Quiescent(c.plant))
  {
    hide Interlocked, FaultProgram, ZoneOperations.OpenZone, FindZone, AllOff, ExecutionEvents, SomeUnknown;
    var step := c.program.value.steps[c.plant.store.program.step];
    OpenZoneMeans(env, c.plant, step.zone, step.duration);
    var (open, result) := CallOpenZone(env, c, step.zone, step.duration);
    if result != Ok { FaultOutcome(env, open); }
  }

  lemma ProcessMasterKeepsOutputs(env: Environment, p: Plant)
    requires Interlocked(p)
    ensures Interlocked(MasterOperations.ProcessMaster(env, p).0)
  {
    hide Interlocked, LockoutKept, MasterOperations.ProcessMaster;
    ProcessMasterKept(env, p);
  }

  lemma WaitingMasterOutcome(env: Environment, c: Controller)
    requires Within(c) && Consistent(c) && c.plant.store.program.state == WaitingMaster
    ensures Outcome(Release(ProcessWaitingMaster(env, c).0), Quiescent(c.plant))
  {
    hide Interlocked, FaultProgram, OpenCurrentZone, AllOff, SomeUnknown, MasterOperations.ProcessMaster;
    ProcessMasterKeepsOutputs(env, c.plant);
    var timed := CallProcessMaster(env, c).0;
    FaultOutcome(env, timed);
    OpenCurrentZoneOutcome(env, timed);
  }

  /** Closing the zone of a step succeeds only if it was the one on or none was, and fails quietly only in the same cases. */
  lemma CloseZoneMeans(env: Environment, p: Plant, id: Text)
    requires Interlocked(p)
    ensures var (q, result) := ZoneOperations.CloseZone(env, p, id);
            var found := FindZone(p.store.zones, id);
            var alone := Quiescent(p) || (found.Some? && p.store.outputs[p.store.zones[found.value].output] == On);
            && Interlocked(q)
            && (result == Ok ==> alone && AllOff(q.store.outputs))
            && (Quiescent(q) <==> alone)
  {
    hide LockoutKept, ZoneOperations.CloseZone, FaultRecorded, RelaysRecorded;
    CloseZoneKeeps(env, p, id);
    var found := FindZone(p.store.zones, id);
    if found.Some? && Busy(p.store.zones[found.value]) {
      BusyIsAlone(p.store, found.value);
    } else {
      assert ZoneOperations.CloseZone(env, p, id) == (p, if found.None? then NotFound else InvalidState) by {
        CloseRefused(env, p, id);
      }
    }
  }

  lemma CloseRefused(env: Environment, p: Plant, id: Text)
    requires var found := FindZone(p.store.zones, id); found.None? || !Busy(p.store.zones[found.value])
    ensures ZoneOperations.CloseZone(env, p, id) == (p, if FindZone(p.store.zones, id).None? then NotFound else InvalidState)
  {
    hide FindZone, ExecutionEvents;
  }

  /** With a busy zone, either its own output is on or none is. */
  lemma BusyIsAlone(s: RuntimeState, i: nat)
    requires StoreSafe(s) && i < |s.zones| && Busy(s.zones[i])
    ensures s.outputs[s.zones[i].output] == On || AllOff(s.outputs) || SomeUnknown(s.outputs)
  {
    if !AllOff(s.outputs) {
      var o: OutputIndex :| s.outputs[o] != Off;
      assert UsedBusy(s.zones, o);
      assert o == s.zones[i].output;
    }
  }

  lemma RunningZoneOutcome(env: Environment, c: Controller)
    requires Within(c) && Consistent(c) && c.plant.store.program.state == RunningZone
    ensures var d := ProcessRunningZone(env, c).0; d == Ticked(c) || Outcome(Release(d), Alone(c))
  {
    hide Interlocked, LockoutKept, FaultProgram, Advance, ZoneOperations.CloseZone, FindZone, AllOff, SomeUnknown, Outcome;
    var step := c.program.value.steps[c.plant.store.program.step];
    TickKept(c.plant);
    CloseZoneMeans(env, Tick(c.plant), step.zone);
    var (closed, result) := CallCloseZone(env, Ticked(c), step.zone);
    FaultOutcome(env, closed);
    if result == Ok { AdvanceOutcome(env, closed); }
  }

  lemma AdvanceOutcome(env: Environment, c: Controller)
    requires Within(c) && AllOff(c.plant.store.outputs) && Consistent(c) && c.plant.store.program.state == RunningZone
    ensures Outcome(Release(Advance(env, c).0), true)
  {
    hide Interlocked, LockoutKept, OpenCurrentZone, FindZone, AllOff, SomeUnknown;
    var index := c.plant.store.program.step;
    var done := Emit(c, StepCompleted(Time(env, c), index, c.program.value.steps[index].zone));
    if index + 1 < |c.program.value.steps| {
      var moved := Ticked(WithStore(done, SetRunningZone(done.plant.store, index + 1, Time(env, done)).0));
      OnlyProgramKept(c.plant, moved.plant);
      OpenCurrentZoneOutcome(env, moved);
    }
  }

  lemma PostDelayOutcome(env: Environment, c: Controller)
    requires Within(c) && Consistent(c) && c.plant.store.program.state == WaitingPostDelay
    ensures Outcome(Release(ProcessPostDelay(env, c).0), Quiescent(c.plant))
  {
    hide Interlocked, LockoutKept, Finish, MasterOperations.CloseMaster, AllOff, SomeUnknown, Outcome;
    if Elapsed(Time(env, c), c.plant.store.program.startedAt) < c.program.value.postDelay {
      assert Outcome(Release(Ticked(c)), Quiescent(c.plant)) by { StillWaiting(c); }
    } else {
      TickKept(c.plant);
      CloseMasterSettles(env, Tick(c.plant));
      FinishOutcome(env, CallCloseMaster(env, Ticked(c)).0, Completed, ExecutionCompleted, Quiescent(c.plant));
    }
  }

  lemma StillWaiting(c: Controller)
    requires Consistent(c) && c.plant.store.program.state == WaitingPostDelay
    ensures Outcome(Release(Ticked(c)), Quiescent(c.plant))
  {
    hide AllOff, SomeUnknown;
  }

  lemma ProcessOutcome(env: Environment, c: Controller)
    requires Resting(c) && Active(c)
    ensures var d := ProcessProgram(env, c).0; d == Ticked(c) || Outcome(d, Alone(c))
  {
    hide Interlocked, ProcessWaitingMaster, ProcessRunningZone, ProcessPostDelay, Watering, Quiescent, Outcome;
    match c.plant.store.program.state {
      case WaitingMaster => WaitingMasterOutcome(env, Hold(c));
      case RunningZone => RunningZoneOutcome(env, Hold(c)); HeldAlone(c);
      case WaitingPostDelay => PostDelayOutcome(env, Hold(c));
    }
  }

  lemma HeldAlone(c: Controller)
    requires Consistent(c)
    ensures Alone(Hold(c)) == Alone(c)
  {
    hide FindZone, AllOff, SomeUnknown;
  }

  lemma AbortOutcome(env: Environment, c: Controller)
    requires Resting(c) && Active(c)
    ensures var d := AbortProgram(env, c).0; !Active(d) && Outcome(d, AbortSettles(c)) && (Alone(c) ==> Quiescent(d.plant))
  {
    hide Interlocked, MasterOperations.CloseMaster, ZoneOperations.CloseZone, FindZone, AllOff, SomeUnknown, Outcome;
    var held := Hold(c);
    if c.plant.store.program.state == RunningZone {
      var id := c.program.value.steps[c.plant.store.program.step].zone;
      CloseZoneMeans(env, c.plant, id);
      StepZoneMeans(env, c.plant, id);
      var (stopped, result) := CallCloseZone(env, held, id);
      AbortCloses(env, stopped, result);
    } else {
      AbortCloses(env, held, Ok);
    }
  }

  /** Closing a busy zone settles or leaves its output unknown; closing another zone is refused. */
  lemma StepZoneMeans(env: Environment, p: Plant, id: Text)
    requires Interlocked(p)
    ensures var (q, result) := ZoneOperations.CloseZone(env, p, id); var found := FindZone(p.store.zones, id);
            if found.Some? && Busy(p.store.zones[found.value])
            then Interlocked(q) && if result == Ok then AllOff(q.store.outputs) else SomeUnknown(q.store.outputs)
            else q == p && result != Ok
  {
    hide Interlocked, LockoutKept, ZoneOperations.CloseZone, FindZone, AllOff, SomeUnknown;
    CloseZoneKeeps(env, p, id);
    var found := FindZone(p.store.zones, id);
    if found.None? || !Busy(p.store.zones[found.value]) { CloseRefused(env, p, id); }
  }

  /** The second half of an abort: the valve is closed only if the zone was. */
  lemma AbortCloses(env: Environment, c: Controller, result: IrrigationResult)
    requires Within(c)
    ensures var (shut, final) := if result == Ok && c.plant.store.master.state != MasterClosed then CallCloseMaster(env, c) else (c, result);
            var d := Release(if final == Ok then Finish(env, shut, Aborted, ExecutionAborted) else Finish(env, shut, ProgramFault, ExecutionFault));
            && !Active(d) && Outcome(d, if result == Ok then Quiescent(c.plant) else Settled(c.plant))
            && (Quiescent(d.plant) <==> Quiescent(c.plant))
  {
    hide Interlocked, AllOff, SomeUnknown, MasterOperations.CloseMaster, Outcome;
    if c.plant.store.master.state != MasterOpen { OnIsOpen(c.plant); }
    CloseMasterSettles(env, c.plant);
    var (shut, final) := if result == Ok && c.plant.store.master.state != MasterClosed then CallCloseMaster(env, c) else (c, result);
    var settles := if result == Ok then Quiescent(c.plant) else Settled(c.plant);
    assert Settled(shut.plant) <==> settles;
    if final == Ok {
      FinishOutcome(env, shut, Aborted, ExecutionAborted, settles);
    } else {
      FinishOutcome(env, shut, ProgramFault, ExecutionFault, settles);
    }
  }

  // ----- Endings -----

  /**
   Whatever anybody does, the call that ends an active program is a process or an abort, and it leaves all outputs OFF and the
   valve CLOSED or FAULT, or some output UNKNOWN, exactly under a condition on the state before it: for a process call, that no
   output but that of the running zone is on; for an abort, that the zone of the step can still be closed or all is settled
   already. An ABORTED program always leaves the valve confirmed closed.
   */
  lemma EndingSettles(env: Environment, c: Controller, call: Call)
    requires Resting(c) && Active(c) && !Active(Serve(env, c, call))
    ensures call == ProcessCall || call == AbortCall
    ensures var d := Serve(env, c, call);
            && (Settled(d.plant) <==> if call == AbortCall then AbortSettles(c) else Alone(c))
            && (d.plant.store.program.state == Aborted ==> d.plant.store.master.state == MasterClosed && d.plant.valve == ValveClosed)
  {
    hide StoreSafe, ManualMeansOpen, RelaysRecorded, FaultRecorded, AbortSettles, Alone, Settled, Undisturbed, LockoutKept,
         ProcessProgram, AbortProgram, StartLocked, AllOff, SomeUnknown,
         ZoneOperations.OpenZone, ZoneOperations.CloseZone, ZoneOperations.SafeClose, ZoneOperations.ProcessTimeouts,
         MasterOperations.OpenMaster, MasterOperations.ProcessMaster, MasterOperations.CloseMaster;
    ServeKept(env, c, call);
    ProcessOutcome(env, c);
    AbortOutcome(env, c);
  }

  // ----- Runs -----

  predicate ZoneCall(call: Call) {
    call.OpenZoneCall? || call.CloseZoneCall? || call.SafeCloseCall? || call.ProcessTimeoutsCall?
  }

  lemma RestingKept(env: Environment, c: Controller, call: Call)
    requires Resting(c)
    ensures Resting(Serve(env, c, call))
  {
    hide Interlocked, LockoutKept, Serve;
    ServeKept(env, c, call);
  }

  /** Closing zones from outside leaves no output on, or does nothing. */
  lemma ClosingQuiets(env: Environment, c: Controller, call: Call)
    requires Resting(c) && (call.CloseZoneCall? || call.SafeCloseCall? || call.ProcessTimeoutsCall?)
    ensures var d := Serve(env, c, call);
            && d.program == c.program && d.plant.store.program == c.plant.store.program
            && (Quiescent(d.plant) || d.plant == c.plant || d.plant == Tick(c.plant))
  {
    hide Interlocked, LockoutKept, AllOff, SomeUnknown, FindZone, ExecutionEvents,
         ZoneOperations.CloseZone, ZoneOperations.SafeClose, ZoneOperations.ProcessTimeouts;
    match call {
      case CloseZoneCall(zone) => StepZoneMeans(env, c.plant, zone);
      case SafeCloseCall => SafeCloseIsHonest(env, c.plant);
      case ProcessTimeoutsCall => ExpiredZoneIsClosed(env, c.plant);
    }
  }

  lemma StartQuiet(env: Environment, c: Controller, program: Program, context: StartContext)
    requires Resting(c)
    ensures var d := StartProgram(env, c, program, context).0;
            && Consistent(d) && d.plant.store.outputs == c.plant.store.outputs
            && (d == c || (!Active(c) && d.plant.store.program.state != RunningZone))
  {
    hide Interlocked, MasterOperations.OpenMaster, PlannedDuration, ContextValid;
    StartConsistent(env, c, program, context);
  }

  lemma ServeAlone(env: Environment, c: Controller, call: Call)
    requires Resting(c) && !call.OpenZoneCall?
    ensures var d := Serve(env, c, call);
            && (Alone(c) ==> Alone(d)) && (!ZoneCall(call) && Undisturbed(c) ==> Undisturbed(d))
  {
    hide Interlocked, AbortSettles, Settled, LockoutKept, ProcessProgram, AbortProgram, StartProgram, AllOff, SomeUnknown, FindZone,
         ZoneOperations.CloseZone, ZoneOperations.SafeClose, ZoneOperations.ProcessTimeouts,
         MasterOperations.OpenMaster, MasterOperations.ProcessMaster, MasterOperations.CloseMaster;
    match call {
      case CloseZoneCall(_) => ClosingQuiets(env, c, call);
      case SafeCloseCall => ClosingQuiets(env, c, call);
      case ProcessTimeoutsCall => ClosingQuiets(env, c, call);
      case StartCall(program, context) => StartQuiet(env, c, program, context);
      case ProcessCall => if Active(c) { ProcessOutcome(env, c); } else { ProcessIdle(env, c); }
      case AbortCall => if Active(c) { AbortOutcome(env, c); } else { ProcessIdle(env, c); }
      case _ =>
    }
  }

  lemma ProcessIdle(env: Environment, c: Controller)
    requires !Active(c)
    ensures Consistent(c) && ProcessProgram(env, c) == (c, Rejected) && AbortProgram(env, c) == (c, Rejected)
  {
  }

  lemma {:induction false} RunAlone(env: Environment, c: Controller, calls: seq<Call>)
    requires Resting(c) && forall i | 0 <= i < |calls| :: !calls[i].OpenZoneCall?
    ensures var d := Run(env, c, calls);
            && Resting(d) && (Alone(c) ==> Alone(d))
            && ((forall i | 0 <= i < |calls| :: !ZoneCall(calls[i])) && Undisturbed(c) ==> Undisturbed(d))
  {
    hide Resting, Alone, Undisturbed, Serve, ZoneCall;
    assert Consistent(c) by { RestingConsistent(c); }
    if calls != [] {
      var before := Run(env, c, calls[..|calls| - 1]);
      RunAlone(env, c, calls[..|calls| - 1]);
      RestingKept(env, before, calls[|calls| - 1]);
      ServeAlone(env, before, calls[|calls| - 1]);
    }
  }

  lemma RestingConsistent(c: Controller)
    requires Resting(c)
    ensures Consistent(c)
  {
  }

  lemma StartUndisturbed(env: Environment, c: Controller, program: Program, context: StartContext)
    requires Resting(c) && StartProgram(env, c, program, context).1 == Ok
    ensures Resting(StartProgram(env, c, program, context).0) && Undisturbed(StartProgram(env, c, program, context).0)
  {
    hide Interlocked, LockoutKept, Finish, PlannedDuration, ContextValid, AllOff, SomeUnknown;
    StartKept(env, c, program, context);
    StartConsistent(env, c, program, context);
    OnIsOpen(c.plant);
  }

  /**
   A program started successfully in any reachable state. Whoever calls what in between, as long as nobody else opens a zone, the
   process call that ends it leaves every output OFF and the master valve CLOSED or FAULT, or some output UNKNOWN. If nobody else
   closes zones either, so does an abort.
   */
  lemma ProgramEndsSafely(env: Environment, boot: Controller, earlier: seq<Call>, program: Program, context: StartContext,
                          calls: seq<Call>, last: Call)
    requires Fresh(boot) && forall i | 0 <= i < |calls| :: !calls[i].OpenZoneCall?
    requires last == AbortCall ==> forall i | 0 <= i < |calls| :: !ZoneCall(calls[i])
    ensures Consistent(boot) && Consistent(StartProgram(env, Run(env, boot, earlier), program, context).0)
    ensures var (started, result) := StartProgram(env, Run(env, boot, earlier), program, context);
            var c := Run(env, started, calls); var d := Serve(env, c, last);
            result == Ok && Active(c) && !Active(d) ==>
              var s := d.plant.store;
              && ((AllOff(s.outputs) && (s.master.state == MasterClosed || s.master.state == MasterFault)) || SomeUnknown(s.outputs))
              && (s.program.state == Aborted ==> s.master.state == MasterClosed && d.plant.valve == ValveClosed)
  {
    hide Run, Serve, StartProgram, Interlocked, LockoutKept, Watering, AllOff, SomeUnknown, ZoneCall;
    FreshIsInterlocked(boot);
    FreshLocks(boot);
    RunKept(env, boot, earlier);
    var c := Run(env, boot, earlier);
    StartConsistent(env, c, program, context);
    var (started, result) := StartProgram(env, c, program, context);
    if result == Ok {
      StartUndisturbed(env, c, program, context);
      RunAlone(env, started, calls);
      var before := Run(env, started, calls);
      if Active(before) && !Active(Serve(env, before, last)) {
        EndingSettles(env, before, last);
        UndisturbedSettles(before, last == AbortCall);
      }
    }
  }

  lemma UndisturbedSettles(c: Controller, aborting: bool)
    requires Resting(c) && Active(c) && Alone(c) && (aborting ==> Undisturbed(c))
    ensures if aborting then AbortSettles(c) else Alone(c)
  {
    hide FindZone, AllOff, SomeUnknown, ManualMeansOpen, RelaysRecorded, FaultRecorded;
  }

  lemma FreshLocks(c: Controller)
    requires Fresh(c)
    ensures c.locks == Locks(false, false, false)
  {
  }

  // ----- What the two conditions exclude -----

  /** While an output is on, every other one is off. */
  lemma OnMeansOthersOff(s: RuntimeState, o: OutputIndex)
    requires StoreSafe(s) && s.outputs[o] == On
    ensures forall i: OutputIndex | i != o :: s.outputs[i] == Off
  {
    assert UsedBusy(s.zones, o);
    forall i: OutputIndex | i != o ensures s.outputs[i] == Off {
      assert s.outputs[i] != Off ==> UsedBusy(s.zones, i);
    }
  }

  lemma OnIsNotQuiescent(p: Plant, o: OutputIndex)
    requires Interlocked(p) && p.store.outputs[o] == On
    ensures !Quiescent(p) && p.store.master.state == MasterOpen
  {
    OnMeansOthersOff(p.store, o);
  }

  lemma ClosedIsSettled(p: Plant)
    requires Interlocked(p) && p.store.master.state == MasterClosed
    ensures Settled(p)
  {
    OnIsOpen(p);
  }

  /** A zone opened by somebody else outside the steps of a program: the program's end does not settle the plant. */
  lemma OutsideOpenUnsettles(env: Environment, c: Controller, zone: Text, duration: u32, last: Call)
    requires Resting(c) && Active(c) && c.plant.store.program.state != RunningZone
    requires ZoneOperations.OpenZone(env, c.plant, zone, duration).1 == Ok
    ensures var e := Serve(env, Serve(env, c, OpenZoneCall(zone, duration)), last);
            !Active(e) ==> !Settled(e.plant) && e.plant.store.program.state != Aborted
  {
    hide Interlocked, LockoutKept, AllOff, SomeUnknown, FindZone, ExecutionEvents, ZoneOperations.OpenZone, ZoneOperations.CloseZone,
         ZoneOperations.SafeClose, ZoneOperations.ProcessTimeouts, MasterOperations.OpenMaster, MasterOperations.ProcessMaster,
         MasterOperations.CloseMaster, StartProgram, ProcessProgram, AbortProgram, Settled;
    var d := Serve(env, c, OpenZoneCall(zone, duration));
    var e := Serve(env, d, last);
    OpenZoneMeans(env, c.plant, zone, duration);
    OnIsNotQuiescent(d.plant, d.plant.store.zones[FindZone(d.plant.store.zones, zone).value].output);
    if !Active(e) {
      EndingSettles(env, d, last);
      RestingKept(env, d, last);
      if e.plant.store.program.state == Aborted { ClosedIsSettled(e.plant); }
    }
  }

  /** The zone of a step closed by somebody else before an abort: the program ends in FAULT with the master valve left OPEN. */
  lemma OutsideCloseThenAbort(env: Environment, c: Controller)
    requires Resting(c) && c.plant.store.program.state == RunningZone && Watering(c)
    requires var id := c.program.value.steps[c.plant.store.program.step].zone; ZoneOperations.CloseZone(env, c.plant, id).1 == Ok
    ensures var id := c.program.value.steps[c.plant.store.program.step].zone;
            var e := Serve(env, Serve(env, c, CloseZoneCall(id)), AbortCall).plant.store;
            e.program.state == ProgramFault && AllOff(e.outputs) && e.master.state == MasterOpen
  {
    hide Interlocked, LockoutKept, AllOff, SomeUnknown, FindZone, ExecutionEvents, ZoneOperations.CloseZone, MasterOperations.CloseMaster;
    var id := c.program.value.steps[c.plant.store.program.step].zone;
    var d := Serve(env, c, CloseZoneCall(id));
    OnIsNotQuiescent(c.plant, c.plant.store.zones[FindZone(c.plant.store.zones, id).value].output);
    StepZoneMeans(env, c.plant, id);
    CloseZoneMeans(env, c.plant, id);
    ClosedIsIdle(env, c.plant, id);
    CloseRefused(env, d.plant, id);
  }

  lemma ClosedIsIdle(env: Environment, p: Plant, id: Text)
    requires ZoneOperations.CloseZone(env, p, id).1 == Ok
    ensures var zones := ZoneOperations.CloseZone(env, p, id).0.store.zones;
            FindZone(zones, id).Some? && !Busy(zones[FindZone(zones, id).value])
  {
    hide ExecutionEvents, FindZone, Driven;
    SameFound(p.store.zones, ZoneOperations.CloseZone(env, p, id).0.store.zones, id);
  }
}
