/** The state store, updated in place. */
module StateStores {
  import opened Bytes
  import opened Common
  import opened RuntimeStates

  class StateStore {
    var current: RuntimeState

    constructor ()
      ensures current == Initial()
    {
      current := Initial();
    }

    method FindZoneIndex(id: Text) returns (found: Option<nat>)
      ensures found == FindZone(current.zones, id)
    {
      for index := 0 to |current.zones|
        invariant FindFrom(current.zones, id, index) == FindZone(current.zones, id)
      {
        if current.zones[index].id == id { return Some(index); }
      }
      return None;
    }

    method HasActiveOutput() returns (active: bool)
      ensures active == !AllOff(current.outputs)
    {
      for index := 0 to MAX_OUTPUTS
        invariant forall i | 0 <= i < index :: current.outputs[i] == Off
      {
        if current.outputs[index] != Off { return true; }
      }
      return false;
    }

    method MasterCloseEligible() returns (eligible: bool)
      ensures eligible == CloseEligible(current)
    {
      var active := HasActiveOutput();
      eligible := (current.master.state == MasterOpen || current.master.state == MasterOpening) && !active;
    }

    /** A rejected configuration leaves the store as it was. */
    method ConfigureZones(zones: seq<Zone>) returns (result: IrrigationResult)
      modifies this
      ensures result == if ZonesAcceptable(zones) then Ok else Rejected
      ensures current == if ZonesAcceptable(zones) then old(current).(zones := InitialZones(zones)) else old(current)
    {
      if |zones| > MAX_ZONES { return Rejected; }
      var configured: seq<ZoneRuntime> := [];
      for index := 0 to |zones|
        invariant forall i | 0 <= i < index :: zones[i].outputIndex < MAX_OUTPUTS
        invariant forall i, j | 0 <= i < j < index :: !Conflict(zones[i], zones[j])
        invariant configured == InitialZones(zones[..index])
      {
        if zones[index].outputIndex >= MAX_OUTPUTS { return Rejected; }
        for previous := 0 to index
          invariant forall i | 0 <= i < previous :: !Conflict(zones[i], zones[index])
        {
          if zones[previous].id == zones[index].id || zones[previous].outputIndex == zones[index].outputIndex {
            assert Conflict(zones[previous], zones[index]);
            return Rejected;
          }
        }
        assert zones[..index + 1][..index] == zones[..index];
        configured := configured + [InitialZone(zones[index])];
      }
      assert zones[..|zones|] == zones;
      current := current.(zones := configured);
      return Ok;
    }

    method TransitionSystem(next: SystemState) returns (result: IrrigationResult)
      modifies this
      ensures (current, result) == RuntimeStates.TransitionSystem(old(current), next)
    {
      if !SystemTransitionAllowed(current.system, next) { return InvalidState; }
      current := current.(system := next);
      return Ok;
    }

    /** Whether the zone could be opened now, and if so its output and its own duration. */
    method PrepareZoneOpen(id: Text) returns (result: IrrigationResult, output: OutputIndex, duration: u32)
      ensures result == RuntimeStates.PrepareZoneOpen(current, id)
      ensures result == Ok ==>
        var i := FindZone(current.zones, id).value; output == current.zones[i].output && duration == current.zones[i].duration
    {
      var found := FindZoneIndex(id);
      if found.None? { return NotFound, 0, 0; }
      var zone := current.zones[found.value];
      var active := HasActiveOutput();
      if current.system != Manual || zone.state != ZoneIdle || current.master.state != MasterOpen || active {
        return InvalidState, 0, 0;
      }
      return Ok, zone.output, zone.duration;
    }

    method OpenZone(id: Text, openedAt: u64, duration: u32) returns (result: IrrigationResult)
      modifies this
      ensures (current, result) == RuntimeStates.OpenZone(old(current), id, openedAt, duration)
    {
      var output, ignored;
      result, output, ignored := PrepareZoneOpen(id);
      if result != Ok { return; }
      var found := FindZoneIndex(id);
      var zone := current.zones[found.value].(state := ZoneOpen, openedAt := openedAt, duration := duration);
      current := current.(zones := current.zones[found.value := zone]);
      current := current.(outputs := current.outputs[output := On]);
    }

    method CloseZone(id: Text) returns (result: IrrigationResult)
      modifies this
      ensures (current, result) == RuntimeStates.CloseZone(old(current), id)
    {
      var found := FindZoneIndex(id);
      if found.None? { return NotFound; }
      var zone := current.zones[found.value];
      if zone.state != ZoneOpen && zone.state != ZoneFault { return InvalidState; }
      zone := zone.(state := ZoneIdle, openedAt := 0);
      current := current.(zones := current.zones[found.value := zone]);
      current := current.(outputs := current.outputs[zone.output := Off]);
      var active := HasActiveOutput();
      if !active && current.system == Manual { current := current.(system := Ready); }
      return Ok;
    }

    method RecordZoneFault(id: Text, output: OutputState) returns (result: IrrigationResult)
      modifies this
      ensures (current, result) == RuntimeStates.RecordZoneFault(old(current), id, output)
    {
      var found := FindZoneIndex(id);
      if found.None? { return NotFound; }
      var zone := current.zones[found.value];
      if zone.state == ZoneDisabled { return InvalidState; }
      current := current.(zones := current.zones[found.value := zone.(state := ZoneFault)]);
      current := current.(outputs := current.outputs[zone.output := output]);
      current := current.(system := Error);
      return Ok;
    }

    method ConfigureMaster(preOpenDelay: u32) returns (result: IrrigationResult)
      modifies this
      ensures (current, result) == RuntimeStates.ConfigureMaster(old(current), preOpenDelay)
    {
      if current.master.state != MasterClosed { return InvalidState; }
      current := current.(master := current.master.(preOpenDelay := preOpenDelay));
      return Ok;
    }

    method BeginMasterOpen(confirmedAt: u64) returns (result: IrrigationResult)
      modifies this
      ensures (current, result) == RuntimeStates.BeginMasterOpen(old(current), confirmedAt)
    {
      if current.master.state != MasterClosed && current.master.state != MasterFault { return InvalidState; }
      current := current.(master := current.master.(state := MasterOpening, confirmedAt := confirmedAt));
      return Ok;
    }

    method CompletePreOpenDelay(now: u64) returns (result: IrrigationResult)
      modifies this
      ensures (current, result) == RuntimeStates.CompletePreOpenDelay(old(current), now)
    {
      if current.master.state != MasterOpening { return InvalidState; }
      if Elapsed(now, current.master.confirmedAt) < current.master.preOpenDelay { return Timeout; }
      current := current.(master := current.master.(state := MasterOpen));
      return Ok;
    }

    method BeginMasterClose() returns (result: IrrigationResult)
      modifies this
      ensures (current, result) == RuntimeStates.BeginMasterClose(old(current))
    {
      var eligible := MasterCloseEligible();
      if !eligible { return InvalidState; }
      current := current.(master := current.master.(state := MasterClosing));
      return Ok;
    }

    method CompleteMasterClose() returns (result: IrrigationResult)
      modifies this
      ensures (current, result) == RuntimeStates.CompleteMasterClose(old(current))
    {
      if current.master.state != MasterClosing { return InvalidState; }
      current := current.(master := current.master.(state := MasterClosed, confirmedAt := 0));
      return Ok;
    }

    method RecordMasterFault()
      modifies this
      ensures current == RuntimeStates.RecordMasterFault(old(current))
    {
      current := current.(master := current.master.(state := MasterFault));
    }

    method BeginProgram() returns (result: IrrigationResult)
      modifies this
      ensures (current, result) == RuntimeStates.BeginProgram(old(current))
    {
      if current.program.state != ProgramIdle && current.program.state != Completed && current.program.state != Aborted {
        return InvalidState;
      }
      current := current.(program := ProgramRuntime(WaitingMaster, 0, 0));
      return Ok;
    }

    method SetRunningZone(step: nat, startedAt: u64) returns (result: IrrigationResult)
      modifies this
      ensures (current, result) == RuntimeStates.SetRunningZone(old(current), step, startedAt)
    {
      if current.program.state != WaitingMaster && current.program.state != RunningZone { return InvalidState; }
      current := current.(program := ProgramRuntime(RunningZone, step, startedAt));
      return Ok;
    }

    method SetWaitingPostDelay(startedAt: u64) returns (result: IrrigationResult)
      modifies this
      ensures (current, result) == RuntimeStates.SetWaitingPostDelay(old(current), startedAt)
    {
      if current.program.state != RunningZone { return InvalidState; }
      current := current.(program := current.program.(state := WaitingPostDelay, startedAt := startedAt));
      return Ok;
    }

    method SetTerminal(state: ProgramState) returns (result: IrrigationResult)
      modifies this
      ensures (current, result) == RuntimeStates.SetTerminal(old(current), state)
    {
      if state != Completed && state != Aborted && state != ProgramFault { return InvalidState; }
      current := current.(program := current.program.(state := state));
      return Ok;
    }

    method ConfigureScheduler(count: nat) returns (result: IrrigationResult)
      modifies this
      ensures (current, result) == RuntimeStates.ConfigureScheduler(old(current), count)
    {
      if count > MAX_SCHEDULES { return Rejected; }
      current := current.(scheduler := current.scheduler.(count := count));
      return Ok;
    }

    method ResetOccurrence(index: nat) returns (result: IrrigationResult)
      requires current.scheduler.count <= MAX_SCHEDULES
      modifies this
      ensures (current, result) == RuntimeStates.ResetOccurrence(old(current), index)
    {
      if index >= current.scheduler.count { return InvalidState; }
      current := WithOccurrence(current, index, NEVER);
      return Ok;
    }

    method RecordOccurrence(index: nat, last: u64, status: OccurrenceStatus) returns (result: IrrigationResult)
      requires current.scheduler.count <= MAX_SCHEDULES
      modifies this
      ensures (current, result) == RuntimeStates.RecordOccurrence(old(current), index, last, status)
    {
      if index >= current.scheduler.count || status == NoOccurrence { return InvalidState; }
      current := WithOccurrence(current, index, Occurrence(last, status));
      return Ok;
    }
  }
}
