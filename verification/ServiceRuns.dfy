/** Whole runs of service calls, by any callers in any order, and the interlock and lockout they keep. */
module ServiceRuns {
  import opened Bytes
  import opened Common
  import opened RuntimeStates
  import opened Plants
  import opened ProgramOperations
  import ZoneOperations
  import MasterOperations

  datatype Call =
    | OpenZoneCall(zone: Text, duration: u32)
    | CloseZoneCall(zone: Text)
    | SafeCloseCall
    | ProcessTimeoutsCall
    | OpenMasterCall
    | ProcessMasterCall
    | CloseMasterCall
    | StartCall(program: Program, context: StartContext)
    | ProcessCall
    | AbortCall

  /** Between calls no lock is held, so every call goes through. */
  function Serve(env: Environment, c: Controller, call: Call): (d: Controller)
    requires Consistent(c)
    ensures Consistent(d)
  {
    match call
    case OpenZoneCall(zone, duration) => c.(plant := ZoneOperations.OpenZone(env, c.plant, zone, duration).0)
    case CloseZoneCall(zone) => c.(plant := ZoneOperations.CloseZone(env, c.plant, zone).0)
    case SafeCloseCall => c.(plant := ZoneOperations.SafeClose(env, c.plant).0)
    case ProcessTimeoutsCall => c.(plant := ZoneOperations.ProcessTimeouts(env, c.plant).0)
    case OpenMasterCall => c.(plant := MasterOperations.OpenMaster(env, c.plant).0)
    case ProcessMasterCall => c.(plant := MasterOperations.ProcessMaster(env, c.plant).0)
    case CloseMasterCall => c.(plant := MasterOperations.CloseMaster(env, c.plant).0)
    case StartCall(program, context) => StartConsistent(env, c, program, context); StartProgram(env, c, program, context).0
    case ProcessCall => ProcessConsistent(env, c); ProcessProgram(env, c).0
    case AbortCall => AbortConsistent(env, c); AbortProgram(env, c).0
  }

  function Run(env: Environment, c: Controller, calls: seq<Call>): (d: Controller)
    requires Consistent(c)
    ensures Consistent(d)
  {
    if calls == [] then c else Serve(env, Run(env, c, calls[..|calls| - 1]), calls[|calls| - 1])
  }

  /** READY, everything off and closed, no program yet, nothing recorded. */
  ghost predicate Fresh(c: Controller) {
    && c.plant.store.system == Ready && c.plant.store.outputs == ALL_OFF
    && c.plant.store.master.state == MasterClosed && c.plant.valve == ValveClosed
    && c.plant.store.program.state == ProgramIdle
    && (forall o: OutputIndex :: !c.plant.relays[o])
    && c.plant.events == [] && c.locks == Locks(false, false, false)
    && exists zones :: ZonesAcceptable(zones) && c.plant.store.zones == InitialZones(zones)
  }

  // ----- What the program operations leave to the program service -----

  /** The plant of a controller after a part of a program operation: the held program and the locks stay. */
  predicate SameProgram(c: Controller, d: Controller) {
    && d.program == c.program && d.context == c.context && d.locks == c.locks
    && d.plant.store.master.preOpenDelay == c.plant.store.master.preOpenDelay
    && d.plant.store.scheduler == c.plant.store.scheduler
  }

  lemma FaultProgramEnds(env: Environment, c: Controller)
    ensures var d := FaultProgram(env, c); SameProgram(c, d) && d.plant.store.program == c.plant.store.program.(state := ProgramFault)
  {
    hide MasterOperations.CloseMaster;
  }

  lemma OpenCurrentZoneConsistent(env: Environment, c: Controller)
    requires c.program.Some? && c.plant.store.program.step < |c.program.value.steps|
    ensures var d := OpenCurrentZone(env, c).0;
            SameProgram(c, d) && (Active(d) ==> d.plant.store.program.step == c.plant.store.program.step)
  {
    hide FaultProgram, ZoneOperations.OpenZone;
    var step := c.program.value.steps[c.plant.store.program.step];
    var open := CallOpenZone(env, c, step.zone, step.duration).0;
    FaultProgramEnds(env, open);
  }

  lemma StartConsistent(env: Environment, c: Controller, program: Program, context: StartContext)
    requires Consistent(c)
    ensures var d := StartProgram(env, c, program, context).0;
            && Consistent(d) && d.locks == c.locks && d.plant.store.scheduler == c.plant.store.scheduler
            && d.plant.store.master.preOpenDelay == c.plant.store.master.preOpenDelay
  {
    hide MasterOperations.OpenMaster;
  }

  lemma ProcessConsistent(env: Environment, c: Controller)
    requires Consistent(c)
    ensures var d := ProcessProgram(env, c).0; Consistent(d) && SameProgram(c, d)
  {
    if Active(c) && !c.locks.programs {
      match c.plant.store.program.state {
        case WaitingMaster => WaitingMasterConsistent(env, Hold(c));
        case RunningZone => RunningZoneConsistent(env, Hold(c));
        case WaitingPostDelay => PostDelayConsistent(env, Hold(c));
      }
      hide ProcessWaitingMaster, ProcessRunningZone, ProcessPostDelay;
    }
  }

  lemma WaitingMasterConsistent(env: Environment, c: Controller)
    requires Consistent(c) && c.plant.store.program.state == WaitingMaster
    ensures var d := ProcessWaitingMaster(env, c).0; Consistent(d) && SameProgram(c, d)
  {
    hide FaultProgram, OpenCurrentZone, MasterOperations.ProcessMaster;
    var timed := CallProcessMaster(env, c).0;
    FaultProgramEnds(env, timed);
    OpenCurrentZoneConsistent(env, timed);
  }

  lemma RunningZoneConsistent(env: Environment, c: Controller)
    requires Consistent(c) && c.plant.store.program.state == RunningZone
    ensures var d := ProcessRunningZone(env, c).0; Consistent(d) && SameProgram(c, d)
  {
    hide FaultProgram, Advance, ZoneOperations.CloseZone;
    var closed := CallCloseZone(env, Ticked(c), c.program.value.steps[c.plant.store.program.step].zone).0;
    FaultProgramEnds(env, closed);
    AdvanceConsistent(env, closed);
  }

  lemma AdvanceConsistent(env: Environment, c: Controller)
    requires Consistent(c) && c.plant.store.program.state == RunningZone
    ensures var d := Advance(env, c).0; Consistent(d) && SameProgram(c, d)
  {
    hide OpenCurrentZone;
    var index := c.plant.store.program.step;
    var done := Emit(c, StepCompleted(Time(env, c), index, c.program.value.steps[index].zone));
    if index + 1 < |c.program.value.steps| {
      OpenCurrentZoneConsistent(env, Ticked(WithStore(done, SetRunningZone(done.plant.store, index + 1, Time(env, done)).0)));
    }
  }

  lemma PostDelayConsistent(env: Environment, c: Controller)
    requires Consistent(c) && c.plant.store.program.state == WaitingPostDelay
    ensures var d := ProcessPostDelay(env, c).0; Consistent(d) && SameProgram(c, d)
  {
    hide MasterOperations.CloseMaster;
  }

  lemma AbortConsistent(env: Environment, c: Controller)
    requires Consistent(c)
    ensures var d := AbortProgram(env, c).0; Consistent(d) && SameProgram(c, d)
  {
    hide MasterOperations.CloseMaster, ZoneOperations.CloseZone;
  }

  /** No call changes a lock for good, the occurrences of the scheduler, or the pre-open delay. */
  lemma ServeFrames(env: Environment, c: Controller, call: Call)
    requires Consistent(c)
    ensures var d := Serve(env, c, call);
            && d.locks == c.locks && d.plant.store.scheduler == c.plant.store.scheduler
            && d.plant.store.master.preOpenDelay == c.plant.store.master.preOpenDelay
  {
    hide ZoneOperations.OpenZone, ZoneOperations.CloseZone, ZoneOperations.SafeClose, ZoneOperations.ProcessTimeouts,
         MasterOperations.OpenMaster, MasterOperations.ProcessMaster, MasterOperations.CloseMaster,
         StartProgram, ProcessProgram, AbortProgram;
    if call.StartCall? {
      StartConsistent(env, c, call.program, call.context);
    } else if call.ProcessCall? {
      ProcessConsistent(env, c);
    } else if call.AbortCall? {
      AbortConsistent(env, c);
    }
  }
}
