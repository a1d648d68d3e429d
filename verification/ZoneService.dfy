/** What each operation of the zone service does to the plant. */
module ZoneOperations {
  import opened Bytes
  import opened Common
  import opened RuntimeStates
  import opened Plants

  /** The ids and outputs of the zones stay; only their states move. */
  predicate SameZones(a: seq<ZoneRuntime>, b: seq<ZoneRuntime>) {
    |a| == |b| && forall i | 0 <= i < |a| :: a[i].id == b[i].id && a[i].output == b[i].output
  }

  /** What no operation on zones touches. */
  predicate ZoneFrame(p: Plant, q: Plant) {
    && q.store.program == p.store.program && q.store.master == p.store.master && q.store.scheduler == p.store.scheduler
    && q.valve == p.valve && q.valveCalls == p.valveCalls && q.ticks >= p.ticks
    && ExecutionEvents(q.events) == ExecutionEvents(p.events)
    && SameZones(p.store.zones, q.store.zones)
  }

  function FaultZone(env: Environment, p: Plant, id: Text, output: OutputState): (q: Plant)
    ensures ZoneFrame(p, q)
  {
    var (store, result) := RecordZoneFault(p.store, id, output);
    var q := p.(store := store);
    if result == Ok then
      ExecutionEventsAppend(q.events, ZoneEvent(Now(env, q), Faulted, id));
      PublishZone(env, q, Faulted, id)
    else q
  }

  function CheckZoneStart(p: Plant): IrrigationResult {
    if p.store.master.state == MasterOpen then Ok else InvalidState
  }

  /** The output is on: the open is recorded and published, or undone. */
  function CommitOpen(env: Environment, p: Plant, id: Text, output: OutputIndex, effective: u32): (r: (Plant, IrrigationResult))
    ensures ZoneFrame(p, r.0)
  {
    var (store, recorded) := RuntimeStates.OpenZone(p.store, id, Now(env, p), effective);
    var open := Tick(p).(store := store);
    if recorded != Ok then (FaultZone(env, SetOutput(env, open, output, false).0, id, Unknown), recorded)
    else
      ExecutionEventsAppend(open.events, ZoneEvent(Now(env, open), Opened, id));
      (PublishZone(env, open, Opened, id), Ok)
  }

  /** After the guards: switch the output on, and record the zone open or faulted. */
  function Actuate(env: Environment, p: Plant, i: nat, id: Text, duration: u32): (r: (Plant, IrrigationResult))
    requires i < |p.store.zones|
    ensures ZoneFrame(p, r.0)
  {
    var result := RuntimeStates.PrepareZoneOpen(p.store, id);
    if result != Ok then (p, result)
    else
      var output := p.store.zones[i].output;
      var effective := if duration == 0 then p.store.zones[i].duration else duration;
      var (switched, driven) := SetOutput(env, p, output, true);
      if driven != Ok then
        var (safe, safeOff) := SetOutput(env, switched, output, false);
        (FaultZone(env, safe, id, if safeOff == Ok then Off else Unknown), driven)
      else CommitOpen(env, switched, id, output, effective)
  }

  function OpenZone(env: Environment, p: Plant, id: Text, duration: u32): (r: (Plant, IrrigationResult))
    ensures ZoneFrame(p, r.0)
  {
    match FindZone(p.store.zones, id)
    case None => (p, NotFound)
    case Some(i) =>
      if p.store.zones[i].state != ZoneIdle || p.store.master.state != MasterOpen || !AllOff(p.store.outputs) then (p, InvalidState)
      else if CheckZoneStart(p) != Ok then (p, CheckZoneStart(p))
      else if p.store.system == Ready then
        var (store, transition) := TransitionSystem(p.store, Manual);
        if transition != Ok then (p, transition) else Actuate(env, p.(store := store), i, id, duration)
      else Actuate(env, p, i, id, duration)
  }

  function CloseZone(env: Environment, p: Plant, id: Text): (r: (Plant, IrrigationResult))
    ensures ZoneFrame(p, r.0)
  {
    match FindZone(p.store.zones, id)
    case None => (p, NotFound)
    case Some(i) =>
      var zone := p.store.zones[i];
      if zone.state != ZoneOpen && zone.state != ZoneFault then (p, InvalidState)
      else
        var (switched, driven) := SetOutput(env, p, zone.output, false);
        if driven != Ok then (FaultZone(env, switched, id, Unknown), driven)
        else
          var (store, closed) := RuntimeStates.CloseZone(switched.store, id);
          var q := switched.(store := store);
          if closed != Ok then (q, closed)
          else
            ExecutionEventsAppend(q.events, ZoneEvent(Now(env, q), Closed, id));
            (PublishZone(env, q, Closed, id), Ok)
  }

  /** Zones whose output was not off when the call began are closed in order; the first failure is reported. */
  function SafeCloseFrom(env: Environment, p: Plant, snapshot: RuntimeState, index: nat, first: IrrigationResult):
      (r: (Plant, IrrigationResult))
    requires index <= |snapshot.zones|
    ensures ZoneFrame(p, r.0)
    decreases |snapshot.zones| - index
  {
    if index == |snapshot.zones| then (p, first)
    else if snapshot.outputs[snapshot.zones[index].output] != Off then
      var (q, result) := CloseZone(env, p, snapshot.zones[index].id);
      SafeCloseFrom(env, q, snapshot, index + 1, if first == Ok then result else first)
    else SafeCloseFrom(env, p, snapshot, index + 1, first)
  }

  function SafeClose(env: Environment, p: Plant): (r: (Plant, IrrigationResult))
    ensures ZoneFrame(p, r.0)
  {
    SafeCloseFrom(env, p, p.store, 0, Ok)
  }

  predicate TimedOutAt(zone: ZoneRuntime, now: u64) {
    zone.state == ZoneOpen && zone.duration != 0 && Elapsed(now, zone.openedAt) >= zone.duration
  }

  /** Zones that had run out when the call began are closed in order, until one cannot be. */
  function TimeoutsFrom(env: Environment, p: Plant, snapshot: RuntimeState, now: u64, index: nat): (r: (Plant, IrrigationResult))
    requires index <= |snapshot.zones|
    ensures ZoneFrame(p, r.0)
    decreases |snapshot.zones| - index
  {
    if index == |snapshot.zones| then (p, Ok)
    else if TimedOutAt(snapshot.zones[index], now) then
      var (q, result) := CloseZone(env, p, snapshot.zones[index].id);
      if result != Ok then (q, result)
      else
        ExecutionEventsAppend(q.events, ZoneEvent(Now(env, q), TimedOut, snapshot.zones[index].id));
        TimeoutsFrom(env, PublishZone(env, q, TimedOut, snapshot.zones[index].id), snapshot, now, index + 1)
    else TimeoutsFrom(env, p, snapshot, now, index + 1)
  }

  function ProcessTimeouts(env: Environment, p: Plant): (r: (Plant, IrrigationResult))
    ensures ZoneFrame(p, r.0)
  {
    TimeoutsFrom(env, Tick(p), p.store, Now(env, p), 0)
  }
}

/** The zone service: a try-lock around driver calls and store transitions. */
module ZoneServices {
  import opened Bytes
  import opened Common
  import opened RuntimeStates
  import opened Plants
  import opened Boards
  import ZoneOperations

  class ZoneService {
    const board: Board
    var locked: bool

    constructor (board: Board)
      ensures this.board == board && !locked
    {
      this.board := board;
      locked := false;
    }

    method PublishZoneEvent(kind: ZoneEventKind, id: Text)
      modifies board.clock, board.bus
      ensures board.Plant() == PublishZone(board.Env(), old(board.Plant()), kind, id)
    {
      var now := board.clock.NowMs();
      board.bus.Publish(ZoneEvent(now, kind, id));
    }

    method FaultZone(id: Text, output: OutputState)
      modifies board.store, board.clock, board.bus
      ensures board.Plant() == ZoneOperations.FaultZone(board.Env(), old(board.Plant()), id, output)
    {
      var result := board.store.RecordZoneFault(id, output);
      if result == Ok { PublishZoneEvent(Faulted, id); }
    }

    method OpenLocked(id: Text, duration: u32) returns (result: IrrigationResult)
      modifies board.store, board.outputs, board.clock, board.bus
      ensures (board.Plant(), result) == ZoneOperations.OpenZone(board.Env(), old(board.Plant()), id, duration)
    {
      var found := board.store.FindZoneIndex(id);
      if found.None? { return NotFound; }
      var zone := board.store.current.zones[found.value];
      if zone.state != ZoneIdle { return InvalidState; }
      if board.store.current.master.state != MasterOpen { return InvalidState; }
      var active := board.store.HasActiveOutput();
      if active { return InvalidState; }
      result := ZoneOperations.CheckZoneStart(board.Plant());
      if result != Ok { return; }
      if board.store.current.system == Ready {
        result := board.store.TransitionSystem(Manual);
        if result != Ok { return; }
      }
      result := Actuate(found.value, id, duration);
    }

    method Actuate(ghost i: nat, id: Text, duration: u32) returns (result: IrrigationResult)
      requires FindZone(board.store.current.zones, id) == Some(i)
      modifies board.store, board.outputs, board.clock, board.bus
      ensures (board.Plant(), result) == ZoneOperations.Actuate(board.Env(), old(board.Plant()), i, id, duration)
    {
      hide RuntimeStates.OpenZone, RuntimeStates.PrepareZoneOpen, ZoneOperations.FaultZone, ZoneOperations.ZoneFrame,
           Driven, ExecutionEvents, FindZone;
      var output, configured;
      result, output, configured := board.store.PrepareZoneOpen(id);
      if result != Ok { return; }
      var effective := if duration == 0 then configured else duration;
      result := board.outputs.Set(output, true);
      if result != Ok {
        var safeOff := board.outputs.Set(output, false);
        FaultZone(id, if safeOff == Ok then Off else Unknown);
        return;
      }
      result := CommitOpen(id, output, effective);
    }

    /** The output is on: the open is recorded and published, or undone. */
    method CommitOpen(id: Text, output: OutputIndex, effective: u32) returns (result: IrrigationResult)
      modifies board.store, board.outputs, board.clock, board.bus
      ensures (board.Plant(), result) == ZoneOperations.CommitOpen(board.Env(), old(board.Plant()), id, output, effective)
    {
      hide RuntimeStates.OpenZone, ZoneOperations.FaultZone, ZoneOperations.ZoneFrame, Driven, ExecutionEvents;
      var now := board.clock.NowMs();
      result := board.store.OpenZone(id, now, effective);
      if result != Ok {
        var ignored := board.outputs.Set(output, false);
        FaultZone(id, Unknown);
        return;
      }
      PublishZoneEvent(Opened, id);
    }

    method CloseLocked(id: Text) returns (result: IrrigationResult)
      modifies board.store, board.outputs, board.clock, board.bus
      ensures (board.Plant(), result) == ZoneOperations.CloseZone(board.Env(), old(board.Plant()), id)
    {
      var found := board.store.FindZoneIndex(id);
      if found.None? { return NotFound; }
      var zone := board.store.current.zones[found.value];
      if zone.state != ZoneOpen && zone.state != ZoneFault { return InvalidState; }
      result := board.outputs.Set(zone.output, false);
      if result != Ok {
        FaultZone(id, Unknown);
        return;
      }
      result := board.store.CloseZone(id);
      if result == Ok { PublishZoneEvent(Closed, id); }
    }

    method Open(id: Text, duration: u32) returns (result: IrrigationResult)
      modifies this, board.store, board.outputs, board.clock, board.bus
      ensures locked == old(locked)
      ensures (board.Plant(), result) ==
        if locked then (old(board.Plant()), Rejected)
        else ZoneOperations.OpenZone(board.Env(), old(board.Plant()), id, duration)
    {
      if locked { return Rejected; }
      locked := true;
      result := OpenLocked(id, duration);
      locked := false;
    }

    method Close(id: Text) returns (result: IrrigationResult)
      modifies this, board.store, board.outputs, board.clock, board.bus
      ensures locked == old(locked)
      ensures (board.Plant(), result) ==
        if locked then (old(board.Plant()), Rejected)
        else ZoneOperations.CloseZone(board.Env(), old(board.Plant()), id)
    {
      if locked { return Rejected; }
      locked := true;
      result := CloseLocked(id);
      locked := false;
    }

    method SafeClose() returns (result: IrrigationResult)
      modifies this, board.store, board.outputs, board.clock, board.bus
      ensures locked == old(locked)
      ensures (board.Plant(), result) ==
        if locked then (old(board.Plant()), Rejected)
        else ZoneOperations.SafeClose(board.Env(), old(board.Plant()))
    {
      hide ZoneOperations.CloseZone, ZoneOperations.ZoneFrame;
      if locked { return Rejected; }
      locked := true;
      var snapshot := board.store.current;
      var first := Ok;
      for index := 0 to |snapshot.zones|
        invariant ZoneOperations.SafeCloseFrom(board.Env(), board.Plant(), snapshot, index, first)
               == ZoneOperations.SafeClose(board.Env(), old(board.Plant()))
      {
        if snapshot.outputs[snapshot.zones[index].output] != Off {
          var closed := CloseLocked(snapshot.zones[index].id);
          if first == Ok && closed != Ok { first := closed; }
        }
      }
      locked := false;
      return first;
    }

    method ProcessTimeouts() returns (result: IrrigationResult)
      modifies this, board.store, board.outputs, board.clock, board.bus
      ensures locked == old(locked)
      ensures (board.Plant(), result) ==
        if locked then (old(board.Plant()), Rejected)
        else ZoneOperations.ProcessTimeouts(board.Env(), old(board.Plant()))
    {
      hide ZoneOperations.CloseZone, ZoneOperations.ZoneFrame;
      if locked { return Rejected; }
      locked := true;
      var snapshot := board.store.current;
      var now := board.clock.NowMs();
      for index := 0 to |snapshot.zones|
        invariant locked
        invariant ZoneOperations.TimeoutsFrom(board.Env(), board.Plant(), snapshot, now, index)
               == ZoneOperations.ProcessTimeouts(board.Env(), old(board.Plant()))
      {
        var zone := snapshot.zones[index];
        if zone.state == ZoneOpen && zone.duration != 0 && Elapsed(now, zone.openedAt) >= zone.duration {
          result := CloseLocked(zone.id);
          if result != Ok {
            locked := false;
            return;
          }
          PublishZoneEvent(TimedOut, zone.id);
        }
      }
      locked := false;
      return Ok;
    }
  }
}
