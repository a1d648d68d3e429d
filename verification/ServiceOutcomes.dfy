/** What each service call leaves behind, field by field, from the state before it and what the drivers answered. */
module ServiceOutcomes {
  import opened Bytes
  import opened Common
  import opened RuntimeStates
  import opened Plants
  import opened Interlock
  import InterlockRuns
  import ZoneOperations
  import MasterOperations

  // ----- Zones -----

  predicate NoZone(p: Plant, id: Text) {
    forall k | 0 <= k < |p.store.zones| :: p.store.zones[k].id != id
  }

  /** A zone may be opened: it is idle, the valve is open, nothing is on, and no fault has locked the system. */
  predicate MayOpen(p: Plant, i: nat)
    requires i < |p.store.zones|
  {
    && p.store.zones[i].state == ZoneIdle && p.store.master.state == MasterOpen && p.store.system != Error
    && forall o: OutputIndex :: p.store.outputs[o] == Off
  }

  /** The zone and its output after a fault, with the event that reports it. */
  function Faulty(env: Environment, p: Plant, i: nat, output: OutputState, relays: Relays, commands: seq<Command>): Plant
    requires i < |p.store.zones|
  {
    var zone := p.store.zones[i];
    Plants.Plant.Plant(
      p.store.(system := Error, zones := p.store.zones[i := zone.(state := ZoneFault)], outputs := p.store.outputs[zone.output := output]),
      relays, commands, p.valve, p.valveCalls, p.ticks + 1, p.events + [ZoneEvent(env.clock(p.ticks), Faulted, zone.id)])
  }

  /** The zone open from a moment on, and the event of the moment after. */
  function Watered(env: Environment, p: Plant, i: nat, duration: u32): Plant
    requires i < |p.store.zones|
  {
    var zone := p.store.zones[i];
    Plants.Plant.Plant(
      p.store.(system := Manual, outputs := p.store.outputs[zone.output := On],
               zones := p.store.zones[i := zone.(state := ZoneOpen, openedAt := env.clock(p.ticks), duration := duration)]),
      p.relays[zone.output := true], p.commands + [Command(zone.output, true)], p.valve, p.valveCalls, p.ticks + 2,
      p.events + [ZoneEvent(env.clock(p.ticks + 1), Opened, zone.id)])
  }

  /**
   Opening a zone: unknown and unsuitable zones are refused and nothing moves; a driver that succeeds leaves the zone open from now
   on, for the time asked or its own where none was, with everything else as it was; one that fails is told to switch the output off
   again, and the zone is at fault with its output OFF, or UNKNOWN where that failed too.
   */
  lemma OpenZoneExactly(env: Environment, p: Plant, id: Text, duration: u32, i: nat)
    requires Interlocked(p) && (NoZone(p, id) || (i < |p.store.zones| && p.store.zones[i].id == id))
    ensures var (q, result) := ZoneOperations.OpenZone(env, p, id, duration);
            if NoZone(p, id) then (q, result) == (p, NotFound)
            else if !MayOpen(p, i) then (q, result) == (p, InvalidState)
            else
              var zone, on := p.store.zones[i], env.outputs(|p.commands|);
              match on
              case Done => (q, result) == (Watered(env, p, i, if duration > 0 then duration else zone.duration), Ok)
              case Failed(error, _) =>
                var off := env.outputs(|p.commands| + 1);
                && result == error
                && q == Faulty(env, p, i, if off.Done? then Off else Unknown,
                               Driven(Driven(p.relays, Command(zone.output, true), on), Command(zone.output, false), off),
                               p.commands + [Command(zone.output, true), Command(zone.output, false)])
  {
    hide Driven, StoreSafe, ManualMeansOpen, RelaysRecorded, ValveRecorded, FaultRecorded, ZoneOperations.ZoneFrame, ExecutionEvents,
         ZonesDistinct, ZoneOperations.Actuate, Interlocked;
    assert StoreSafe(p.store) by { SafeStore(p); }
    if !NoZone(p, id) {
      Distinct(p.store);
      FoundIsUnique(p.store.zones, i);
      assert AllOff(p.store.outputs) <==> forall o: OutputIndex :: p.store.outputs[o] == Off;
      SystemIs(p.store);
      if MayOpen(p, i) {
        ActuateExactly(env, p.(store := p.store.(system := Manual)), i, duration);
      } else if p.store.system == Error {
        ActuateRefused(env, p, i, duration);
      }
    }
  }

  lemma SafeStore(p: Plant)
    requires Interlocked(p)
    ensures StoreSafe(p.store)
  {
  }

  lemma ActuateRefused(env: Environment, p: Plant, i: nat, duration: u32)
    requires i < |p.store.zones| && FindZone(p.store.zones, p.store.zones[i].id) == Some(i) && p.store.system == Error
    ensures ZoneOperations.Actuate(env, p, i, p.store.zones[i].id, duration) == (p, InvalidState)
  {
    hide ZoneOperations.CommitOpen, ZoneOperations.FaultZone, ZoneOperations.ZoneFrame, FindZone;
  }

  lemma ActuateExactly(env: Environment, p: Plant, i: nat, duration: u32)
    requires i < |p.store.zones| && FindZone(p.store.zones, p.store.zones[i].id) == Some(i)
    requires MayOpen(p, i) && p.store.system == Manual
    ensures var zone, on := p.store.zones[i], env.outputs(|p.commands|);
            var (q, result) := ZoneOperations.Actuate(env, p, i, zone.id, duration);
            match on
            case Done => (q, result) == (Watered(env, p, i, if duration > 0 then duration else zone.duration), Ok)
            case Failed(error, _) =>
              var off := env.outputs(|p.commands| + 1);
              && result == error
              && q == Faulty(env, p, i, if off.Done? then Off else Unknown,
                             Driven(Driven(p.relays, Command(zone.output, true), on), Command(zone.output, false), off),
                             p.commands + [Command(zone.output, true), Command(zone.output, false)])
  {
    hide ZoneOperations.ZoneFrame, ExecutionEvents, FindZone, ZoneOperations.CommitOpen, ZoneOperations.FaultZone, Driven;
    var zone := p.store.zones[i];
    assert AllOff(p.store.outputs);
    var (switched, driven) := SetOutput(env, p, zone.output, true);
    if driven == Ok {
      OutputSwitched(p.relays, zone.output);
      CommitExactly(env, switched, i, if duration == 0 then zone.duration else duration);
    } else {
      var (safe, safeOff) := SetOutput(env, switched, zone.output, false);
      FaultExactly(env, safe, i, if safeOff == Ok then Off else Unknown);
      assert p.commands + [Command(zone.output, true)] + [Command(zone.output, false)]
          == p.commands + [Command(zone.output, true), Command(zone.output, false)];
    }
  }

  lemma OutputSwitched(relays: Relays, output: OutputIndex)
    ensures Driven(relays, Command(output, true), Done) == relays[output := true]
  {
  }

  lemma CommitExactly(env: Environment, p: Plant, i: nat, effective: u32)
    requires i < |p.store.zones| && FindZone(p.store.zones, p.store.zones[i].id) == Some(i)
    requires MayOpen(p, i) && p.store.system == Manual
    ensures var zone := p.store.zones[i];
            ZoneOperations.CommitOpen(env, p, zone.id, zone.output, effective) ==
            (Plants.Plant.Plant(
              p.store.(outputs := p.store.outputs[zone.output := On],
                       zones := p.store.zones[i := zone.(state := ZoneOpen, openedAt := env.clock(p.ticks), duration := effective)]),
              p.relays, p.commands, p.valve, p.valveCalls, p.ticks + 2, p.events + [ZoneEvent(env.clock(p.ticks + 1), Opened, zone.id)]), Ok)
  {
    hide ZoneOperations.ZoneFrame, ExecutionEvents, FindZone, ZoneOperations.FaultZone, Driven;
    assert AllOff(p.store.outputs);
  }

  lemma FaultExactly(env: Environment, p: Plant, i: nat, output: OutputState)
    requires i < |p.store.zones| && FindZone(p.store.zones, p.store.zones[i].id) == Some(i) && p.store.zones[i].state != ZoneDisabled
    ensures ZoneOperations.FaultZone(env, p, p.store.zones[i].id, output) == Faulty(env, p, i, output, p.relays, p.commands)
  {
    hide ZoneOperations.ZoneFrame, ExecutionEvents, FindZone;
  }

  lemma Distinct(s: RuntimeState)
    requires StoreSafe(s)
    ensures ZonesDistinct(s.zones)
  {
  }

  /** The zone idle again and its output OFF, with the event that reports it. */
  function Shut(env: Environment, p: Plant, i: nat): Plant
    requires i < |p.store.zones|
  {
    var zone := p.store.zones[i];
    Plants.Plant.Plant(
      p.store.(system := if p.store.system == Error then Error else Ready, outputs := p.store.outputs[zone.output := Off],
               zones := p.store.zones[i := zone.(state := ZoneIdle, openedAt := 0)]),
      p.relays[zone.output := false], p.commands + [Command(zone.output, false)], p.valve, p.valveCalls, p.ticks + 1,
      p.events + [ZoneEvent(env.clock(p.ticks), Closed, zone.id)])
  }

  /**
   Closing a zone: unknown zones and those that are neither open nor at fault are refused and nothing moves; a driver that succeeds
   leaves the zone idle, every output OFF and a system without fault READY; one that fails leaves the zone at fault, its output
   UNKNOWN.
   */
  lemma CloseZoneExactly(env: Environment, p: Plant, id: Text, i: nat)
    requires Interlocked(p) && (NoZone(p, id) || (i < |p.store.zones| && p.store.zones[i].id == id))
    ensures var (q, result) := ZoneOperations.CloseZone(env, p, id);
            if NoZone(p, id) then (q, result) == (p, NotFound)
            else if p.store.zones[i].state != ZoneOpen && p.store.zones[i].state != ZoneFault then (q, result) == (p, InvalidState)
            else
              var zone, off := p.store.zones[i], env.outputs(|p.commands|);
              match off
              case Done => (q, result) == (Shut(env, p, i), Ok) && forall o: OutputIndex :: q.store.outputs[o] == Off
              case Failed(error, _) =>
                && result == error
                && q == Faulty(env, p, i, Unknown, Driven(p.relays, Command(zone.output, false), off),
                               p.commands + [Command(zone.output, false)])
  {
    hide Driven, StoreSafe, ManualMeansOpen, RelaysRecorded, ValveRecorded, FaultRecorded, ZoneOperations.ZoneFrame, ExecutionEvents,
         ZonesDistinct;
    if !NoZone(p, id) {
      Distinct(p.store);
      FoundIsUnique(p.store.zones, i);
      SystemIs(p.store);
      if Busy(p.store.zones[i]) { CloseIsSafe(p.store, i); }
    }
  }

  /** A safe close is the close of the one zone whose output is not OFF, or nothing at all. */
  lemma SafeCloseExactly(env: Environment, p: Plant, i: nat)
    requires Interlocked(p)
    requires (forall o: OutputIndex :: p.store.outputs[o] == Off)
          || (i < |p.store.zones| && p.store.outputs[p.store.zones[i].output] != Off)
    ensures ZoneOperations.SafeClose(env, p) ==
      if forall o: OutputIndex :: p.store.outputs[o] == Off then (p, Ok) else ZoneOperations.CloseZone(env, p, p.store.zones[i].id)
  {
    hide StoreSafe, ManualMeansOpen, RelaysRecorded, ValveRecorded, FaultRecorded, ZoneOperations.ZoneFrame, ZoneOperations.CloseZone,
         ZoneOperations.SafeCloseFrom;
    if forall o: OutputIndex :: p.store.outputs[o] == Off {
      InterlockRuns.SafeCloseSkips(env, p, p.store, 0, Ok);
    } else {
      InterlockRuns.OnlyOneNotOff(p.store, i);
      InterlockRuns.SafeCloseReaches(env, p, p.store, 0, i);
    }
  }

  /** The time between two readings of a 64-bit clock. */
  function Since(now: u64, before: u64): nat {
    (now as int - before as int) % 0x1_0000_0000_0000_0000
  }

  /** The zone is open, has a time, and that time is over. */
  predicate Expired(zone: ZoneRuntime, now: u64) {
    zone.state == ZoneOpen && zone.duration > 0 && Since(now, zone.openedAt) >= zone.duration
  }

  lemma ExpiredIsTimedOut(zone: ZoneRuntime, now: u64)
    ensures Expired(zone, now) <==> ZoneOperations.TimedOutAt(zone, now)
  {
  }

  /** Processing the time of the zones closes the one that has expired and then reports it, or only reads the clock. */
  lemma TimeoutsExactly(env: Environment, p: Plant, i: nat)
    requires Interlocked(p)
    requires (forall k | 0 <= k < |p.store.zones| :: !Expired(p.store.zones[k], env.clock(p.ticks)))
          || (i < |p.store.zones| && Expired(p.store.zones[i], env.clock(p.ticks)))
    ensures var later := p.(ticks := p.ticks + 1);
            ZoneOperations.ProcessTimeouts(env, p) ==
            if forall k | 0 <= k < |p.store.zones| :: !Expired(p.store.zones[k], env.clock(p.ticks)) then (later, Ok)
            else
              var id := p.store.zones[i].id;
              var (q, result) := ZoneOperations.CloseZone(env, later, id);
              if result == Ok then (q.(ticks := q.ticks + 1, events := q.events + [ZoneEvent(env.clock(q.ticks), TimedOut, id)]), Ok)
              else (q, result)
  {
    hide StoreSafe, ManualMeansOpen, RelaysRecorded, ValveRecorded, FaultRecorded, ZoneOperations.ZoneFrame, ZoneOperations.CloseZone,
         ZoneOperations.TimeoutsFrom, ZoneOperations.TimedOutAt, Expired, ExecutionEvents;
    var s, now := p.store, env.clock(p.ticks);
    forall k | 0 <= k < |s.zones| ensures Expired(s.zones[k], now) <==> ZoneOperations.TimedOutAt(s.zones[k], now) {
      ExpiredIsTimedOut(s.zones[k], now);
    }
    if forall k | 0 <= k < |s.zones| :: !Expired(s.zones[k], now) {
      InterlockRuns.TimeoutsSkip(env, Tick(p), s, now, 0);
    } else {
      OthersAreNotExpired(s, i, now);
      InterlockRuns.TimeoutsReach(env, Tick(p), s, now, 0, i);
    }
  }

  lemma OthersAreNotExpired(s: RuntimeState, i: nat, now: u64)
    requires StoreSafe(s) && i < |s.zones| && Expired(s.zones[i], now)
    ensures forall k | 0 <= k < |s.zones| && k != i :: !ZoneOperations.TimedOutAt(s.zones[k], now)
  {
    hide StoreSafe;
    InterlockRuns.OpenIsOn(s, i);
    InterlockRuns.OnlyOneNotOff(s, i);
  }

  // ----- The master valve -----

  function WithMaster(p: Plant, state: MasterState, confirmedAt: u64, valve: ValvePosition, calls: nat, ticks: nat): Plant {
    p.(store := p.store.(master := p.store.master.(state := state, confirmedAt := confirmedAt)), valve := valve, valveCalls := calls,
       ticks := ticks)
  }

  /** Opening starts the delay once the action is confirmed; an action that fails leaves a fault; any other state refuses. */
  lemma OpenMasterExactly(env: Environment, p: Plant)
    ensures var valve, m := env.valve(p.valveCalls), p.store.master;
            MasterOperations.OpenMaster(env, p) ==
            if m.state in {MasterOpening, MasterOpen, MasterClosing} then (p, InvalidState)
            else if valve == Ok then (WithMaster(p, MasterOpening, env.clock(p.ticks), ValveOpened, p.valveCalls + 1, p.ticks + 1), Ok)
            else (WithMaster(p, MasterFault, m.confirmedAt, ValveUnknown, p.valveCalls + 1, p.ticks), valve)
  {
  }

  /** The valve counts as open once the delay since its confirmation is over, and never before. */
  lemma ProcessMasterExactly(env: Environment, p: Plant)
    ensures var m := p.store.master;
            MasterOperations.ProcessMaster(env, p) ==
            if m.state != MasterOpening then (p, Ok)
            else
              var state := if Since(env.clock(p.ticks), m.confirmedAt) >= m.preOpenDelay then MasterOpen else MasterOpening;
              (WithMaster(p, state, m.confirmedAt, p.valve, p.valveCalls, p.ticks + 1), Ok)
  {
  }

  /** Closing needs a valve that is open or opening and every output OFF; an action that fails leaves a fault. */
  lemma CloseMasterExactly(env: Environment, p: Plant)
    ensures var valve, m := env.valve(p.valveCalls), p.store.master;
            MasterOperations.CloseMaster(env, p) ==
            if m.state !in {MasterOpening, MasterOpen} || exists o: OutputIndex :: p.store.outputs[o] != Off then (p, InvalidState)
            else if valve == Ok then (WithMaster(p, MasterClosed, 0, ValveClosed, p.valveCalls + 1, p.ticks), Ok)
            else (WithMaster(p, MasterFault, m.confirmedAt, ValveUnknown, p.valveCalls + 1, p.ticks), valve)
  {
    assert AllOff(p.store.outputs) <==> !exists o: OutputIndex :: p.store.outputs[o] != Off;
  }

  // ----- The configured zones -----

  /** A list of zones is acceptable if it fits the board and no two share an id or an output; each zone then starts out closed. */
  lemma ConfiguredZones(zones: seq<Zone>)
    ensures ZonesAcceptable(zones) <==>
      && |zones| <= 8 && (forall zone | zone in zones :: zone.outputIndex <= 7)
      && (forall i, j | 0 <= i < |zones| && 0 <= j < |zones| && zones[i].id == zones[j].id :: i == j)
      && (forall i, j | 0 <= i < |zones| && 0 <= j < |zones| && zones[i].outputIndex == zones[j].outputIndex :: i == j)
    ensures ZonesAcceptable(zones) ==>
      && |InitialZones(zones)| == |zones|
      && forall i | 0 <= i < |zones| ::
           var z := InitialZones(zones)[i];
           && z.id == zones[i].id && z.output == zones[i].outputIndex && z.duration == zones[i].defaultDurationMs && z.openedAt == 0
           && z.state == if zones[i].enabled then ZoneIdle else ZoneDisabled
  {
    if ZonesAcceptable(zones) {
      forall i, j | 0 <= i < j < |zones| ensures zones[i].id != zones[j].id && zones[i].outputIndex != zones[j].outputIndex {
        assert !Conflict(zones[i], zones[j]);
      }
    }
  }

  // ----- The guards of the store -----

  /** The system changes its state along these lines only; every other transition is refused and changes nothing. */
  lemma SystemMoves(s: RuntimeState, next: SystemState)
    ensures TransitionSystem(s, next) ==
      if s.system == next || (s.system, next) in {(Boot, Ready), (Ready, Manual), (Manual, Ready), (Ready, Error), (Error, Boot)}
      then (s.(system := next), Ok) else (s, InvalidState)
  {
  }

  /** A program begins after none, a completed or an aborted one, runs its steps from there, and waits after the last of them. */
  lemma ProgramMoves(s: RuntimeState, state: ProgramState, step: nat, startedAt: u64)
    ensures BeginProgram(s) ==
      if s.program.state in {ProgramIdle, Completed, Aborted} then (s.(program := ProgramRuntime(WaitingMaster, 0, 0)), Ok) else (s, InvalidState)
    ensures SetRunningZone(s, step, startedAt) ==
      if s.program.state in {WaitingMaster, RunningZone} then (s.(program := ProgramRuntime(RunningZone, step, startedAt)), Ok)
      else (s, InvalidState)
    ensures SetWaitingPostDelay(s, startedAt) ==
      if s.program.state == RunningZone then (s.(program := ProgramRuntime(WaitingPostDelay, s.program.step, startedAt)), Ok)
      else (s, InvalidState)
    ensures SetTerminal(s, state) ==
      if state in {Completed, Aborted, ProgramFault} then (s.(program := ProgramRuntime(state, s.program.step, s.program.startedAt)), Ok)
      else (s, InvalidState)
  {
  }

  /** The master valve is configured while closed, opened from closed or fault, and waits for its delay; a fault can come at any time. */
  lemma MasterMoves(s: RuntimeState, delay: u32, now: u64)
    ensures ConfigureMaster(s, delay) ==
      if s.master.state == MasterClosed then (s.(master := MasterValve(MasterClosed, s.master.confirmedAt, delay)), Ok) else (s, InvalidState)
    ensures BeginMasterOpen(s, now) ==
      if s.master.state in {MasterClosed, MasterFault} then (s.(master := MasterValve(MasterOpening, now, s.master.preOpenDelay)), Ok)
      else (s, InvalidState)
    ensures CompletePreOpenDelay(s, now) ==
      if s.master.state != MasterOpening then (s, InvalidState)
      else if Since(now, s.master.confirmedAt) < s.master.preOpenDelay then (s, IrrigationResult.Timeout)
      else (s.(master := MasterValve(MasterOpen, s.master.confirmedAt, s.master.preOpenDelay)), Ok)
    ensures CompleteMasterClose(s) ==
      if s.master.state == MasterClosing then (s.(master := MasterValve(MasterClosed, 0, s.master.preOpenDelay)), Ok) else (s, InvalidState)
    ensures RecordMasterFault(s) == s.(master := MasterValve(MasterFault, s.master.confirmedAt, s.master.preOpenDelay))
  {
  }

  /** The table of occurrences is written below its count only, and never with the status of an entry that was not handled. */
  lemma OccurrenceMoves(s: RuntimeState, count: nat, index: nat, last: u64, status: OccurrenceStatus)
    requires s.scheduler.count <= 16
    ensures ConfigureScheduler(s, count) ==
      if count <= 16 then (s.(scheduler := SchedulerRuntime(s.scheduler.occurrences, count)), Ok) else (s, Rejected)
    ensures var (after, result) := RecordOccurrence(s, index, last, status);
            if index < s.scheduler.count && status != NoOccurrence
            then result == Ok && after.scheduler.occurrences == s.scheduler.occurrences[index := Occurrence(last, status)] &&
                 after == s.(scheduler := after.scheduler) && after.scheduler.count == s.scheduler.count
            else (after, result) == (s, InvalidState)
    ensures var (after, result) := ResetOccurrence(s, index);
            if index < s.scheduler.count
            then result == Ok && after == s.(scheduler := after.scheduler) && after.scheduler.count == s.scheduler.count &&
                 after.scheduler.occurrences == s.scheduler.occurrences[index := Occurrence(0xffff_ffff_ffff_ffff, NoOccurrence)]
            else (after, result) == (s, InvalidState)
  {
  }
}
