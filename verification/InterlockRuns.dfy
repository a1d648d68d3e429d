/** The interlock and the lockout over whole runs of service calls, for every driver behaviour. */
module InterlockRuns {
  import opened Bytes
  import opened Common
  import opened RuntimeStates
  import opened Plants
  import opened ProgramOperations
  import opened Interlock
  import opened ServiceRuns
  import ZoneOperations
  import MasterOperations

  /** What every part of every operation does to the interlock and the lockout. */
  predicate Kept(p: Plant, q: Plant) {
    Interlocked(p) ==> Interlocked(q) && LockoutKept(p, q)
  }

  lemma KeptThrough(p: Plant, q: Plant, r: Plant)
    requires Kept(p, q) && Kept(q, r)
    ensures Kept(p, r)
  {
    hide Interlocked;
  }

  // ----- Zone operations in loops -----

  lemma CloseZoneKept(env: Environment, p: Plant, id: Text)
    ensures Kept(p, ZoneOperations.CloseZone(env, p, id).0)
  {
    hide Interlocked, LockoutKept, ZoneOperations.CloseZone;
    if Interlocked(p) { CloseZoneKeeps(env, p, id); }
  }

  lemma PublishKept(env: Environment, p: Plant, kind: ZoneEventKind, zone: Text)
    requires kind != Faulted
    ensures Kept(p, PublishZone(env, p, kind, zone))
  {
    hide StoreSafe, ManualMeansOpen, FaultRecorded;
    FaultRecordedAppend(p.events, ZoneEvent(Now(env, p), kind, zone));
  }

  lemma {:induction false} SafeCloseKept(env: Environment, p: Plant, snapshot: RuntimeState, index: nat, first: IrrigationResult)
    requires index <= |snapshot.zones|
    ensures Kept(p, ZoneOperations.SafeCloseFrom(env, p, snapshot, index, first).0)
    decreases |snapshot.zones| - index
  {
    hide Interlocked, LockoutKept, ZoneOperations.CloseZone, ZoneOperations.ZoneFrame;
    if index == |snapshot.zones| {
      SelfKept(p);
    } else if snapshot.outputs[snapshot.zones[index].output] != Off {
      var (q, result) := ZoneOperations.CloseZone(env, p, snapshot.zones[index].id);
      var next := if first == Ok then result else first;
      CloseZoneKept(env, p, snapshot.zones[index].id);
      SafeCloseKept(env, q, snapshot, index + 1, next);
      KeptThrough(p, q, ZoneOperations.SafeCloseFrom(env, q, snapshot, index + 1, next).0);
    } else {
      SafeCloseKept(env, p, snapshot, index + 1, first);
    }
  }

  lemma SelfKept(p: Plant)
    ensures Kept(p, p)
  {
  }

  lemma {:induction false} TimeoutsKept(env: Environment, p: Plant, snapshot: RuntimeState, now: u64, index: nat)
    requires index <= |snapshot.zones|
    ensures Kept(p, ZoneOperations.TimeoutsFrom(env, p, snapshot, now, index).0)
    decreases |snapshot.zones| - index
  {
    hide Interlocked, LockoutKept, ZoneOperations.CloseZone, ZoneOperations.ZoneFrame, PublishZone;
    if index == |snapshot.zones| {
      SelfKept(p);
    } else if ZoneOperations.TimedOutAt(snapshot.zones[index], now) {
      var id := snapshot.zones[index].id;
      var (q, result) := ZoneOperations.CloseZone(env, p, id);
      CloseZoneKept(env, p, id);
      if result == Ok {
        var published := PublishZone(env, q, TimedOut, id);
        PublishKept(env, q, TimedOut, id);
        KeptThrough(p, q, published);
        TimeoutsKept(env, published, snapshot, now, index + 1);
        KeptThrough(p, published, ZoneOperations.TimeoutsFrom(env, published, snapshot, now, index + 1).0);
      }
    } else {
      TimeoutsKept(env, p, snapshot, now, index + 1);
    }
  }

  lemma TickKept(p: Plant)
    ensures Kept(p, Tick(p))
  {
    hide StoreSafe, ManualMeansOpen;
  }

  lemma OpenZoneKept(env: Environment, p: Plant, id: Text, duration: u32)
    ensures Kept(p, ZoneOperations.OpenZone(env, p, id, duration).0)
  {
    hide Interlocked, LockoutKept, ZoneOperations.OpenZone;
    if Interlocked(p) { OpenZoneKeeps(env, p, id, duration); }
  }

  // ----- Master valve operations -----

  /** A master valve that is not open and never was asked to close, or that closes with all outputs off. */
  lemma MasterMoves(p: Plant, q: Plant)
    requires MasterOperations.MasterFrame(p, q) && ValveRecorded(q)
    requires p.store.master.state == MasterOpen ==> q.store.master.state == MasterOpen || AllOff(p.store.outputs)
    ensures Kept(p, q)
  {
    if Interlocked(p) {
      assert q.store.outputs == p.store.outputs && q.store.zones == p.store.zones && q.store.system == p.store.system;
    }
  }

  lemma OpenMasterKept(env: Environment, p: Plant)
    ensures Kept(p, MasterOperations.OpenMaster(env, p).0)
  {
    hide StoreSafe, ManualMeansOpen;
    if Interlocked(p) { MasterMoves(p, MasterOperations.OpenMaster(env, p).0); }
  }

  lemma ProcessMasterKept(env: Environment, p: Plant)
    ensures Kept(p, MasterOperations.ProcessMaster(env, p).0)
  {
    hide StoreSafe, ManualMeansOpen;
    if Interlocked(p) { MasterMoves(p, MasterOperations.ProcessMaster(env, p).0); }
  }

  lemma CloseMasterKept(env: Environment, p: Plant)
    ensures Kept(p, MasterOperations.CloseMaster(env, p).0)
  {
    hide StoreSafe, ManualMeansOpen;
    if Interlocked(p) { MasterMoves(p, MasterOperations.CloseMaster(env, p).0); }
  }

  // ----- Program operations -----

  /** Only the program's runtime, the clock and execution events differ. */
  predicate OnlyProgram(p: Plant, q: Plant) {
    && q.store == p.store.(program := q.store.program)
    && q.relays == p.relays && q.commands == p.commands && q.valve == p.valve
    && (q.events == p.events ||
        (|q.events| == |p.events| + 1 && q.events[..|p.events|] == p.events && !q.events[|p.events|].ZoneEvent?))
  }

  lemma OnlyProgramKept(p: Plant, q: Plant)
    requires OnlyProgram(p, q)
    ensures Kept(p, q)
  {
    hide FaultRecorded;
    if q.events != p.events {
      assert q.events == p.events + [q.events[|p.events|]];
      FaultRecordedAppend(p.events, q.events[|p.events|]);
    }
  }

  lemma FinishKept(env: Environment, c: Controller, state: ProgramState, result: ExecutionResult)
    ensures Kept(c.plant, Finish(env, c, state, result).plant)
  {
    hide Kept;
    OnlyProgramKept(c.plant, Finish(env, c, state, result).plant);
  }

  lemma CallCloseMasterKept(env: Environment, c: Controller)
    ensures Kept(c.plant, CallCloseMaster(env, c).0.plant)
  {
    hide Kept, MasterOperations.CloseMaster;
    SelfKept(c.plant);
    CloseMasterKept(env, c.plant);
  }

  lemma FaultProgramKept(env: Environment, c: Controller)
    ensures Kept(c.plant, FaultProgram(env, c).plant)
  {
    hide Kept, CallCloseMaster, Finish, CloseEligible;
    var shut := if CloseEligible(c.plant.store) then CallCloseMaster(env, c).0 else c;
    SelfKept(c.plant);
    CallCloseMasterKept(env, c);
    FinishKept(env, shut, ProgramFault, ExecutionFault);
    KeptThrough(c.plant, shut.plant, FaultProgram(env, c).plant);
  }

  lemma OpenCurrentZoneKept(env: Environment, c: Controller)
    requires c.program.Some? && c.plant.store.program.step < |c.program.value.steps|
    ensures Kept(c.plant, OpenCurrentZone(env, c).0.plant)
  {
    hide Kept, FaultProgram, ZoneOperations.OpenZone;
    var step := c.program.value.steps[c.plant.store.program.step];
    var (open, result) := CallOpenZone(env, c, step.zone, step.duration);
    SelfKept(c.plant);
    OpenZoneKept(env, c.plant, step.zone, step.duration);
    if result != Ok {
      FaultProgramKept(env, open);
    } else {
      OnlyProgramKept(open.plant, OpenCurrentZone(env, c).0.plant);
    }
    KeptThrough(c.plant, open.plant, OpenCurrentZone(env, c).0.plant);
  }

  lemma StartKept(env: Environment, c: Controller, program: Program, context: StartContext)
    ensures Kept(c.plant, StartProgram(env, c, program, context).0.plant)
  {
    hide Kept, Finish, MasterOperations.OpenMaster, PlannedDuration;
    SelfKept(c.plant);
    if program.steps != [] && ContextValid(context) && !Active(c) && !c.locks.programs {
      var (store, result) := BeginProgram(c.plant.store);
      var holding := Hold(WithStore(c, store)).(program := Some(program), context := context);
      var started := Emit(holding, Started(Time(env, holding), program, PlannedDuration(program), context));
      OnlyProgramKept(c.plant, holding.plant);
      OnlyProgramKept(c.plant, started.plant);
      OpenMasterKept(env, started.plant);
      SelfKept(started.plant);
      var opening := CallOpenMaster(env, started).0;
      KeptThrough(c.plant, started.plant, opening.plant);
      FinishKept(env, opening, ProgramFault, ExecutionFault);
      KeptThrough(c.plant, opening.plant, Finish(env, opening, ProgramFault, ExecutionFault).plant);
    }
  }

  lemma WaitingMasterKept(env: Environment, c: Controller)
    requires Consistent(c) && c.plant.store.program.state == WaitingMaster
    ensures Kept(c.plant, ProcessWaitingMaster(env, c).0.plant)
  {
    hide Kept, FaultProgram, OpenCurrentZone, MasterOperations.ProcessMaster;
    var (timed, result) := CallProcessMaster(env, c);
    SelfKept(c.plant);
    ProcessMasterKept(env, c.plant);
    FaultProgramKept(env, timed);
    OpenCurrentZoneKept(env, timed);
    KeptThrough(c.plant, timed.plant, FaultProgram(env, timed).plant);
    KeptThrough(c.plant, timed.plant, OpenCurrentZone(env, timed).0.plant);
  }

  lemma AdvanceKept(env: Environment, c: Controller)
    requires c.program.Some? && c.plant.store.program.step < |c.program.value.steps|
    ensures Kept(c.plant, Advance(env, c).0.plant)
  {
    hide Kept, OpenCurrentZone;
    var index := c.plant.store.program.step;
    var done := Emit(c, StepCompleted(Time(env, c), index, c.program.value.steps[index].zone));
    if index + 1 < |c.program.value.steps| {
      var moved := Ticked(WithStore(done, SetRunningZone(done.plant.store, index + 1, Time(env, done)).0));
      OnlyProgramKept(c.plant, moved.plant);
      if moved.plant.store.program.step < |c.program.value.steps| {
        OpenCurrentZoneKept(env, moved);
        KeptThrough(c.plant, moved.plant, OpenCurrentZone(env, moved).0.plant);
      }
    } else {
      OnlyProgramKept(c.plant, Advance(env, c).0.plant);
    }
  }

  lemma RunningZoneKept(env: Environment, c: Controller)
    requires Consistent(c) && c.plant.store.program.state == RunningZone
    ensures Kept(c.plant, ProcessRunningZone(env, c).0.plant)
  {
    hide Kept, FaultProgram, Advance, ZoneOperations.CloseZone;
    var id := c.program.value.steps[c.plant.store.program.step].zone;
    var (closed, result) := CallCloseZone(env, Ticked(c), id);
    TickKept(c.plant);
    SelfKept(Tick(c.plant));
    CloseZoneKept(env, Tick(c.plant), id);
    KeptThrough(c.plant, Tick(c.plant), closed.plant);
    FaultProgramKept(env, closed);
    KeptThrough(c.plant, closed.plant, FaultProgram(env, closed).plant);
    AdvanceKept(env, closed);
    KeptThrough(c.plant, closed.plant, Advance(env, closed).0.plant);
  }

  lemma PostDelayKept(env: Environment, c: Controller)
    requires Consistent(c) && c.plant.store.program.state == WaitingPostDelay
    ensures Kept(c.plant, ProcessPostDelay(env, c).0.plant)
  {
    hide Kept, Finish, CallCloseMaster;
    var closed := CallCloseMaster(env, Ticked(c)).0;
    TickKept(c.plant);
    CallCloseMasterKept(env, Ticked(c));
    KeptThrough(c.plant, Tick(c.plant), closed.plant);
    FinishKept(env, closed, Completed, ExecutionCompleted);
    KeptThrough(c.plant, closed.plant, Finish(env, closed, Completed, ExecutionCompleted).plant);
  }

  lemma AbortKept(env: Environment, c: Controller)
    requires Consistent(c)
    ensures Kept(c.plant, AbortProgram(env, c).0.plant)
  {
    hide Kept, Finish, CallCloseMaster, ZoneOperations.CloseZone;
    SelfKept(c.plant);
    if Active(c) && !c.locks.programs {
      var held := Hold(c);
      var (stopped, result) :=
        if c.plant.store.program.state == RunningZone
        then CallCloseZone(env, held, c.program.value.steps[c.plant.store.program.step].zone)
        else (held, Ok);
      if c.plant.store.program.state == RunningZone {
        CloseZoneKept(env, c.plant, c.program.value.steps[c.plant.store.program.step].zone);
      }
      assert Kept(c.plant, stopped.plant);
      CallCloseMasterKept(env, stopped);
      KeptThrough(c.plant, stopped.plant, CallCloseMaster(env, stopped).0.plant);
      var shut := if result == Ok && stopped.plant.store.master.state != MasterClosed then CallCloseMaster(env, stopped).0 else stopped;
      FinishKept(env, shut, Aborted, ExecutionAborted);
      FinishKept(env, shut, ProgramFault, ExecutionFault);
      KeptThrough(c.plant, shut.plant, Finish(env, shut, Aborted, ExecutionAborted).plant);
      KeptThrough(c.plant, shut.plant, Finish(env, shut, ProgramFault, ExecutionFault).plant);
    }
  }

  // ----- Whole runs -----

  lemma ServeKept(env: Environment, c: Controller, call: Call)
    requires Consistent(c)
    ensures Kept(c.plant, Serve(env, c, call).plant) && Serve(env, c, call).locks == c.locks
  {
    hide Kept, ZoneOperations.OpenZone, ZoneOperations.CloseZone, MasterOperations.OpenMaster, MasterOperations.ProcessMaster,
         MasterOperations.CloseMaster, StartProgram, ProcessProgram, AbortProgram, ZoneOperations.SafeCloseFrom, ZoneOperations.TimeoutsFrom;
    ServeFrames(env, c, call);
    match call {
      case OpenZoneCall(zone, duration) => OpenZoneKept(env, c.plant, zone, duration);
      case CloseZoneCall(zone) => CloseZoneKept(env, c.plant, zone);
      case SafeCloseCall => SafeCloseKept(env, c.plant, c.plant.store, 0, Ok);
      case ProcessTimeoutsCall =>
        TickKept(c.plant);
        TimeoutsKept(env, Tick(c.plant), c.plant.store, Now(env, c.plant), 0);
        KeptThrough(c.plant, Tick(c.plant), ZoneOperations.ProcessTimeouts(env, c.plant).0);
      case OpenMasterCall => OpenMasterKept(env, c.plant);
      case ProcessMasterCall => ProcessMasterKept(env, c.plant);
      case CloseMasterCall => CloseMasterKept(env, c.plant);
      case StartCall(program, context) => StartKept(env, c, program, context);
      case ProcessCall => ProcessKept(env, c);
      case AbortCall => AbortKept(env, c);
    }
  }

  lemma ProcessKept(env: Environment, c: Controller)
    requires Consistent(c)
    ensures Kept(c.plant, ProcessProgram(env, c).0.plant)
  {
    hide Kept, ProcessWaitingMaster, ProcessRunningZone, ProcessPostDelay;
    SelfKept(c.plant);
    if Active(c) && !c.locks.programs {
      match c.plant.store.program.state {
        case WaitingMaster => WaitingMasterKept(env, Hold(c));
        case RunningZone => RunningZoneKept(env, Hold(c));
        case WaitingPostDelay => PostDelayKept(env, Hold(c));
      }
    }
  }

  lemma {:induction false} RunKept(env: Environment, c: Controller, calls: seq<Call>)
    requires Consistent(c)
    ensures Kept(c.plant, Run(env, c, calls).plant) && Run(env, c, calls).locks == c.locks
  {
    hide Kept, Serve;
    if calls == [] {
      SelfKept(c.plant);
    } else {
      var before := Run(env, c, calls[..|calls| - 1]);
      RunKept(env, c, calls[..|calls| - 1]);
      ServeKept(env, before, calls[|calls| - 1]);
      KeptThrough(c.plant, before.plant, Run(env, c, calls).plant);
    }
  }

  lemma FreshIsInterlocked(c: Controller)
    requires Fresh(c)
    ensures Consistent(c) && Interlocked(c.plant)
  {
    hide InitialZones, ZonesDistinct;
    var zones :| ZonesAcceptable(zones) && c.plant.store.zones == InitialZones(zones);
    AcceptableAreDistinct(zones);
  }

  /**
   In every service run and for every driver behaviour: energised relays are recorded ON or UNKNOWN, a zone is OPEN exactly
   when its output is ON, at most one zone is OPEN or FAULT, the system is MANUAL exactly when some zone is OPEN, an output
   is ON only while the master valve is OPEN and was confirmed open, and every lock is free again.
   */
  lemma RunIsInterlocked(env: Environment, c: Controller, calls: seq<Call>)
    requires Fresh(c)
    ensures Consistent(c)
    ensures var d := Run(env, c, calls); var s := d.plant.store;
            && (forall o: OutputIndex | d.plant.relays[o] :: s.outputs[o] == On || s.outputs[o] == Unknown)
            && (forall i | 0 <= i < |s.zones| :: s.zones[i].state == ZoneOpen <==> s.outputs[s.zones[i].output] == On)
            && (forall i, j | 0 <= i < j < |s.zones| :: !(Busy(s.zones[i]) && Busy(s.zones[j])))
            && (s.system == Manual <==> exists i :: 0 <= i < |s.zones| && s.zones[i].state == ZoneOpen)
            && (forall o: OutputIndex | s.outputs[o] == On :: s.master.state == MasterOpen && d.plant.valve == ValveOpened)
            && d.locks == Locks(false, false, false)
  {
    hide Run;
    FreshIsInterlocked(c);
    RunKept(env, c, calls);
  }

  /** Once a zone fault has been recorded, no later call ever asks the driver to switch an output on. */
  lemma FaultLocksOut(env: Environment, c: Controller, calls: seq<Call>, more: seq<Call>)
    requires Fresh(c)
    ensures Consistent(c)
    ensures var d := Run(env, c, calls); var e := Run(env, d, more);
            FaultRecorded(d.plant.events) ==> e.plant.store.system == Error && OnlyOffAfter(d.plant.commands, e.plant.commands)
  {
    hide Run, StoreSafe, ManualMeansOpen, FaultRecorded, RelaysRecorded, ValveRecorded;
    FreshIsInterlocked(c);
    RunKept(env, c, calls);
    RunKept(env, Run(env, c, calls), more);
  }

  // ----- A program that ended in FAULT is the last one -----

  lemma ServeKeepsFault(env: Environment, c: Controller, call: Call)
    requires Consistent(c) && c.plant.store.program.state == ProgramFault
    ensures var d := Serve(env, c, call);
            d.plant.store.program == c.plant.store.program && ExecutionEvents(d.plant.events) == ExecutionEvents(c.plant.events)
  {
    hide ZoneOperations.OpenZone, ZoneOperations.CloseZone, ZoneOperations.SafeClose, ZoneOperations.ProcessTimeouts,
         MasterOperations.OpenMaster, MasterOperations.ProcessMaster, MasterOperations.CloseMaster, ExecutionEvents;
  }

  /** Once a program has reached FAULT no program ever starts again: no execution event follows. */
  lemma {:induction false} FaultIsFinal(env: Environment, c: Controller, calls: seq<Call>)
    requires Consistent(c) && c.plant.store.program.state == ProgramFault
    ensures var d := Run(env, c, calls);
            d.plant.store.program == c.plant.store.program && ExecutionEvents(d.plant.events) == ExecutionEvents(c.plant.events)
  {
    hide Serve, ExecutionEvents;
    if calls != [] {
      FaultIsFinal(env, c, calls[..|calls| - 1]);
      ServeKeepsFault(env, Run(env, c, calls[..|calls| - 1]), calls[|calls| - 1]);
    }
  }

  // ----- Closing everything -----

  /** The one zone whose output is not off, if any. */
  lemma OnlyOneNotOff(s: RuntimeState, i: nat)
    requires StoreSafe(s) && i < |s.zones| && s.outputs[s.zones[i].output] != Off
    ensures Busy(s.zones[i]) && forall j | 0 <= j < |s.zones| && j != i :: s.outputs[s.zones[j].output] == Off && s.zones[j].state != ZoneOpen
  {
    var k :| 0 <= k < |s.zones| && s.zones[k].output == s.zones[i].output && Busy(s.zones[k]);
    assert k == i;
    forall j | 0 <= j < |s.zones| && j != i ensures s.outputs[s.zones[j].output] == Off {
      assert s.outputs[s.zones[j].output] != Off ==> UsedBusy(s.zones, s.zones[j].output);
    }
  }

  lemma {:induction false} SafeCloseSkips(env: Environment, p: Plant, snapshot: RuntimeState, index: nat, first: IrrigationResult)
    requires index <= |snapshot.zones| && forall j | index <= j < |snapshot.zones| :: snapshot.outputs[snapshot.zones[j].output] == Off
    ensures ZoneOperations.SafeCloseFrom(env, p, snapshot, index, first) == (p, first)
    decreases |snapshot.zones| - index
  {
    if index < |snapshot.zones| { SafeCloseSkips(env, p, snapshot, index + 1, first); }
  }

  lemma {:induction false} SafeCloseReaches(env: Environment, p: Plant, snapshot: RuntimeState, index: nat, i: nat)
    requires index <= i < |snapshot.zones| && snapshot.outputs[snapshot.zones[i].output] != Off
    requires forall j | 0 <= j < |snapshot.zones| && j != i :: snapshot.outputs[snapshot.zones[j].output] == Off
    ensures ZoneOperations.SafeCloseFrom(env, p, snapshot, index, Ok) == ZoneOperations.CloseZone(env, p, snapshot.zones[i].id)
    decreases i - index
  {
    hide ZoneOperations.CloseZone, ZoneOperations.ZoneFrame;
    if index < i {
      SafeCloseReaches(env, p, snapshot, index + 1, i);
    } else {
      var (q, result) := ZoneOperations.CloseZone(env, p, snapshot.zones[i].id);
      SafeCloseSkips(env, q, snapshot, index + 1, result);
    }
  }

  /** A safe close reports OK exactly when it leaves every output OFF; otherwise some output is UNKNOWN. */
  lemma SafeCloseIsHonest(env: Environment, p: Plant)
    requires Interlocked(p)
    ensures var (q, result) := ZoneOperations.SafeClose(env, p);
            && (result == Ok <==> AllOff(q.store.outputs))
            && (result != Ok ==> SomeUnknown(q.store.outputs))
  {
    hide StoreSafe, ManualMeansOpen, ZoneOperations.CloseZone, ZoneOperations.ZoneFrame, ZoneOperations.SafeCloseFrom, LockoutKept;
    if AllOff(p.store.outputs) {
      SafeCloseSkips(env, p, p.store, 0, Ok);
    } else {
      var i := NotOffZone(p.store);
      OnlyOneNotOff(p.store, i);
      SafeCloseReaches(env, p, p.store, 0, i);
      CloseZoneKeeps(env, p, p.store.zones[i].id);
      FoundIsUniqueIn(p.store, i);
    }
  }

  lemma NotOffZone(s: RuntimeState) returns (i: nat)
    requires StoreSafe(s) && !AllOff(s.outputs)
    ensures i < |s.zones| && s.outputs[s.zones[i].output] != Off
  {
    var o: OutputIndex :| s.outputs[o] != Off;
    var k :| 0 <= k < |s.zones| && s.zones[k].output == o && Busy(s.zones[k]);
    i := k;
  }

  lemma FoundIsUniqueIn(s: RuntimeState, i: nat)
    requires StoreSafe(s) && i < |s.zones|
    ensures FindZone(s.zones, s.zones[i].id) == Some(i)
  {
    FoundIsUnique(s.zones, i);
  }

  lemma {:induction false} TimeoutsSkip(env: Environment, p: Plant, snapshot: RuntimeState, now: u64, index: nat)
    requires index <= |snapshot.zones|
    requires forall j | index <= j < |snapshot.zones| :: !ZoneOperations.TimedOutAt(snapshot.zones[j], now)
    ensures ZoneOperations.TimeoutsFrom(env, p, snapshot, now, index) == (p, Ok)
    decreases |snapshot.zones| - index
  {
    if index < |snapshot.zones| { TimeoutsSkip(env, p, snapshot, now, index + 1); }
  }

  lemma {:induction false} TimeoutsReach(env: Environment, p: Plant, snapshot: RuntimeState, now: u64, index: nat, i: nat)
    requires index <= i < |snapshot.zones| && ZoneOperations.TimedOutAt(snapshot.zones[i], now)
    requires forall j | 0 <= j < |snapshot.zones| && j != i :: !ZoneOperations.TimedOutAt(snapshot.zones[j], now)
    ensures var (q, result) := ZoneOperations.CloseZone(env, p, snapshot.zones[i].id);
            ZoneOperations.TimeoutsFrom(env, p, snapshot, now, index)
            == if result == Ok then (PublishZone(env, q, TimedOut, snapshot.zones[i].id), Ok) else (q, result)
    decreases i - index
  {
    hide ZoneOperations.CloseZone, ZoneOperations.ZoneFrame, ZoneOperations.TimedOutAt;
    if index < i {
      TimeoutsReach(env, p, snapshot, now, index + 1, i);
    } else {
      var q := ZoneOperations.CloseZone(env, p, snapshot.zones[i].id).0;
      TimeoutsSkip(env, PublishZone(env, q, TimedOut, snapshot.zones[i].id), snapshot, now, index + 1);
    }
  }

  /** A zone whose time has run out is closed, or its output is UNKNOWN; without such a zone nothing is touched. */
  lemma ExpiredZoneIsClosed(env: Environment, p: Plant)
    requires Interlocked(p)
    ensures var (q, result) := ZoneOperations.ProcessTimeouts(env, p);
            if exists i :: 0 <= i < |p.store.zones| && ZoneOperations.TimedOutAt(p.store.zones[i], Now(env, p))
            then (if result == Ok then AllOff(q.store.outputs) else SomeUnknown(q.store.outputs))
            else q == Tick(p) && result == Ok
  {
    hide StoreSafe, ManualMeansOpen, ZoneOperations.CloseZone, ZoneOperations.ZoneFrame, ZoneOperations.TimeoutsFrom, LockoutKept;
    var s, now := p.store, Now(env, p);
    if i :| 0 <= i < |s.zones| && ZoneOperations.TimedOutAt(s.zones[i], now) {
      OpenIsOn(s, i);
      OnlyOneNotOff(s, i);
      TimeoutsReach(env, Tick(p), s, now, 0, i);
      TickKept(p);
      CloseZoneKeeps(env, Tick(p), s.zones[i].id);
      FoundIsUniqueIn(s, i);
    } else {
      TimeoutsSkip(env, Tick(p), s, now, 0);
    }
  }

  lemma OpenIsOn(s: RuntimeState, i: nat)
    requires StoreSafe(s) && i < |s.zones| && s.zones[i].state == ZoneOpen
    ensures s.outputs[s.zones[i].output] == On
  {
  }
}
