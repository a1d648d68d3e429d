/** The interlock between zones, relays and the master valve, and what every zone and master valve operation keeps. */
module Interlock {
  import opened Bytes
  import opened Common
  import opened RuntimeStates
  import opened Plants
  import ZoneOperations

  predicate ZonesDistinct(zones: seq<ZoneRuntime>) {
    forall i, j | 0 <= i < j < |zones| :: zones[i].id != zones[j].id && zones[i].output != zones[j].output
  }

  predicate Busy(zone: ZoneRuntime) {
    zone.state == ZoneOpen || zone.state == ZoneFault
  }

  predicate SomeOpen(zones: seq<ZoneRuntime>) {
    exists i | 0 <= i < |zones| :: zones[i].state == ZoneOpen
  }

  /** What relates zones, outputs, the system state and the master valve inside the store. */
  predicate StoreSafe(s: RuntimeState) {
    && ZonesDistinct(s.zones)
    && (s.system == Ready || s.system == Manual || s.system == Error)
    && (forall i | 0 <= i < |s.zones| :: s.zones[i].state == ZoneOpen <==> s.outputs[s.zones[i].output] == On)
    && (forall o: OutputIndex | s.outputs[o] == On :: s.master.state == MasterOpen)
    && (forall o: OutputIndex | s.outputs[o] != Off :: UsedBusy(s.zones, o))
    && (forall i, j | 0 <= i < j < |s.zones| :: !(Busy(s.zones[i]) && Busy(s.zones[j])))
    && (forall i | 0 <= i < |s.zones| && s.zones[i].state == ZoneFault :: s.system == Error)
    && (SomeOpen(s.zones) ==> s.system == Manual)
  }

  predicate UsedBusy(zones: seq<ZoneRuntime>, o: OutputIndex) {
    exists i | 0 <= i < |zones| :: zones[i].output == o && Busy(zones[i])
  }

  predicate SomeUnknown(outputs: OutputStates) {
    exists o: OutputIndex :: outputs[o] == Unknown
  }

  predicate ManualMeansOpen(s: RuntimeState) {
    s.system == Manual ==> SomeOpen(s.zones)
  }

  /** Every energised relay is recorded ON or UNKNOWN. */
  predicate RelaysRecorded(p: Plant) {
    forall o: OutputIndex | p.relays[o] :: p.store.outputs[o] != Off
  }

  /** The recorded master state is the last confirmed action of the valve. */
  predicate ValveRecorded(p: Plant) {
    match p.store.master.state
    case MasterClosed => p.valve == ValveClosed
    case MasterOpening => p.valve == ValveOpened
    case MasterOpen => p.valve == ValveOpened
    case MasterClosing => false
    case MasterFault => true
  }

  predicate FaultRecorded(events: seq<Event>) {
    exists i | 0 <= i < |events| :: events[i].ZoneEvent? && events[i].kind == Faulted
  }

  predicate Interlocked(p: Plant) {
    && StoreSafe(p.store) && ManualMeansOpen(p.store)
    && RelaysRecorded(p) && ValveRecorded(p)
    && (FaultRecorded(p.events) ==> p.store.system == Error)
  }

  /** Later commands only ever switch outputs off. */
  predicate OnlyOffAfter(before: seq<Command>, after: seq<Command>) {
    before <= after && forall k | |before| <= k < |after| :: !after[k].on
  }

  /** Once the system is in ERROR it stays there and no output is switched on. */
  predicate LockoutKept(p: Plant, q: Plant) {
    p.store.system == Error ==> q.store.system == Error && OnlyOffAfter(p.commands, q.commands)
  }

  lemma FaultRecordedAppend(events: seq<Event>, event: Event)
    ensures FaultRecorded(events + [event]) <==> FaultRecorded(events) || (event.ZoneEvent? && event.kind == Faulted)
  {
    var all := events + [event];
    assert forall i | 0 <= i < |events| :: all[i] == events[i];
    assert all[|events|] == event;
    if FaultRecorded(events) {
      var i :| 0 <= i < |events| && events[i].ZoneEvent? && events[i].kind == Faulted;
      assert all[i] == events[i];
    }
  }

  // ----- Store transitions -----

  lemma FoundIsUnique(zones: seq<ZoneRuntime>, i: nat)
    requires ZonesDistinct(zones) && i < |zones|
    ensures FindZone(zones, zones[i].id) == Some(i)
  {
  }

  /** All off: no zone is open, and a busy zone is a faulted one. */
  lemma FaultIsSafe(s: RuntimeState, i: nat, output: OutputState)
    requires StoreSafe(s) && i < |s.zones| && s.zones[i].state != ZoneDisabled
    requires output != On
    requires forall j | 0 <= j < |s.zones| && j != i :: !Busy(s.zones[j])
    ensures var (t, result) := RecordZoneFault(s, s.zones[i].id, output);
            result == Ok && StoreSafe(t) && ManualMeansOpen(t) && t.system == Error && t.outputs == s.outputs[s.zones[i].output := output]
  {
    hide UsedBusy;
    FoundIsUnique(s.zones, i);
    var t := RecordZoneFault(s, s.zones[i].id, output).0;
    assert t.zones == s.zones[i := s.zones[i].(state := ZoneFault)] && t.outputs == s.outputs[s.zones[i].output := output];
    assert forall j | 0 <= j < |t.zones| && j != i :: t.zones[j] == s.zones[j] && t.zones[j].output != t.zones[i].output;
    forall o: OutputIndex | t.outputs[o] != Off ensures UsedBusy(t.zones, o) {
      FaultIsUsed(s.zones, i, o);
    }
  }

  /** The output of the faulted zone is used by a busy zone, and so is every output that was. */
  lemma FaultIsUsed(zones: seq<ZoneRuntime>, i: nat, o: OutputIndex)
    requires i < |zones| && (o == zones[i].output || UsedBusy(zones, o))
    ensures UsedBusy(zones[i := zones[i].(state := ZoneFault)], o)
  {
    var after := zones[i := zones[i].(state := ZoneFault)];
    if o == zones[i].output {
      assert Busy(after[i]) && after[i].output == o;
    } else {
      var k :| 0 <= k < |zones| && zones[k].output == o && Busy(zones[k]);
      assert after[k] == zones[k];
    }
  }

  lemma OpenIsSafe(s: RuntimeState, i: nat, openedAt: u64, duration: u32)
    requires StoreSafe(s) && i < |s.zones| && AllOff(s.outputs)
    requires s.system == Manual && s.master.state == MasterOpen && s.zones[i].state == ZoneIdle
    ensures var (t, result) := OpenZone(s, s.zones[i].id, openedAt, duration);
            result == Ok && StoreSafe(t) && SomeOpen(t.zones) && t.system == Manual && t.outputs == s.outputs[s.zones[i].output := On]
  {
    FoundIsUnique(s.zones, i);
    var t := OpenZone(s, s.zones[i].id, openedAt, duration).0;
    assert forall j | 0 <= j < |t.zones| && j != i :: t.zones[j] == s.zones[j] && t.zones[j].output != t.zones[i].output;
    assert t.zones[i].state == ZoneOpen && Busy(t.zones[i]);
    assert forall j | 0 <= j < |s.zones| :: s.zones[j].state != ZoneOpen && s.zones[j].state != ZoneFault;
  }

  lemma CloseIsSafe(s: RuntimeState, i: nat)
    requires StoreSafe(s) && i < |s.zones| && Busy(s.zones[i])
    ensures var (t, result) := CloseZone(s, s.zones[i].id);
            && result == Ok && StoreSafe(t) && ManualMeansOpen(t) && AllOff(t.outputs)
            && (s.system == Error ==> t.system == Error) && (s.system != Error ==> t.system == Ready)
            && forall o: OutputIndex | o != s.zones[i].output :: s.outputs[o] == Off
  {
    FoundIsUnique(s.zones, i);
    var t := CloseZone(s, s.zones[i].id).0;
    assert forall j | 0 <= j < |t.zones| && j != i :: t.zones[j] == s.zones[j] && t.zones[j].output != t.zones[i].output;
    assert forall o: OutputIndex | UsedBusy(s.zones, o) :: o == s.zones[i].output;
    assert AllOff(t.outputs);
    assert !SomeOpen(t.zones);
  }

  lemma AcceptableAreDistinct(zones: seq<Zone>)
    requires ZonesAcceptable(zones)
    ensures ZonesDistinct(InitialZones(zones)) && forall i | 0 <= i < |zones| :: !Busy(InitialZones(zones)[i])
  {
    var configured := InitialZones(zones);
    forall i, j | 0 <= i < j < |zones| ensures configured[i].id != configured[j].id && configured[i].output != configured[j].output {
      assert !Conflict(zones[i], zones[j]);
    }
  }

  // ----- Zone operations -----

  lemma FaultZoneKeeps(env: Environment, p: Plant, i: nat, output: OutputState)
    requires StoreSafe(p.store) && i < |p.store.zones| && p.store.zones[i].state != ZoneDisabled && ValveRecorded(p)
    requires output != On
    requires forall j | 0 <= j < |p.store.zones| && j != i :: !Busy(p.store.zones[j])
    requires forall o: OutputIndex | p.relays[o] :: p.store.outputs[p.store.zones[i].output := output][o] != Off
    ensures var q := ZoneOperations.FaultZone(env, p, p.store.zones[i].id, output);
            && Interlocked(q) && q.store.system == Error && q.commands == p.commands
            && q.store.outputs == p.store.outputs[p.store.zones[i].output := output]
  {
    hide StoreSafe, ManualMeansOpen, RecordZoneFault;
    FaultIsSafe(p.store, i, output);
  }

  lemma ActuateKeeps(env: Environment, p: Plant, i: nat, duration: u32)
    requires StoreSafe(p.store) && RelaysRecorded(p) && ValveRecorded(p) && AllOff(p.store.outputs)
    requires FaultRecorded(p.events) ==> p.store.system == Error
    requires i < |p.store.zones| && p.store.zones[i].state == ZoneIdle && p.store.master.state == MasterOpen
    requires p.store.system == Manual || (p.store.system == Error && ManualMeansOpen(p.store))
    ensures var (q, result) := ZoneOperations.Actuate(env, p, i, p.store.zones[i].id, duration);
            && Interlocked(q) && LockoutKept(p, q)
            && (result != Ok ==> AllOff(q.store.outputs) || SomeUnknown(q.store.outputs))
            && (result == Ok ==> q.store.system == Manual && q.store.outputs[p.store.zones[i].output] == On)
            && (result != Ok && p.store.system == Manual ==> q.store.system == Error)
  {
    hide StoreSafe, RecordZoneFault, OpenZone, ZoneOperations.FaultZone;
    var id, output := p.store.zones[i].id, p.store.zones[i].output;
    AllOffMeans(p.store);
    FoundIsUnique(p.store.zones, i);
    if p.store.system == Manual {
      var (switched, driven) := SetOutput(env, p, output, true);
      if driven != Ok {
        var (safe, safeOff) := SetOutput(env, switched, output, false);
        BusyMeans(p.store);
        FaultZoneKeeps(env, safe, i, if safeOff == Ok then Off else Unknown);
      } else {
        var effective := if duration == 0 then p.store.zones[i].duration else duration;
        OpenIsSafe(switched.store, i, Now(env, switched), effective);
      }
    }
  }

  lemma AllOffMeans(s: RuntimeState)
    requires StoreSafe(s) && AllOff(s.outputs)
    ensures !SomeOpen(s.zones) && ZonesDistinct(s.zones)
  {
  }

  lemma BusyMeans(s: RuntimeState)
    requires StoreSafe(s) && s.system != Error && AllOff(s.outputs)
    ensures forall j | 0 <= j < |s.zones| :: !Busy(s.zones[j])
  {
  }

  lemma OpenZoneKeeps(env: Environment, p: Plant, id: Text, duration: u32)
    requires Interlocked(p)
    ensures var (q, result) := ZoneOperations.OpenZone(env, p, id, duration);
            && Interlocked(q) && LockoutKept(p, q)
            && (result == Ok ==>
                && FindZone(p.store.zones, id).Some? && q.store.system == Manual
                && q.store.outputs[p.store.zones[FindZone(p.store.zones, id).value].output] == On)
            && (result != Ok && AllOff(p.store.outputs) ==> AllOff(q.store.outputs) || SomeUnknown(q.store.outputs))
            && (result != Ok && !AllOff(p.store.outputs) ==> q == p)
  {
    hide StoreSafe, ZoneOperations.Actuate, FindZone;
    var found := FindZone(p.store.zones, id);
    if found.Some? && p.store.zones[found.value].state == ZoneIdle && p.store.master.state == MasterOpen && AllOff(p.store.outputs) {
      AllOffMeans(p.store);
      if p.store.system == Ready {
        ManualIsSafe(p.store);
        ActuateKeeps(env, p.(store := p.store.(system := Manual)), found.value, duration);
      } else {
        SystemIs(p.store);
        ActuateKeeps(env, p, found.value, duration);
      }
    }
  }

  lemma ManualIsSafe(s: RuntimeState)
    requires StoreSafe(s) && s.system == Ready
    ensures StoreSafe(s.(system := Manual))
  {
  }

  lemma SystemIs(s: RuntimeState)
    requires StoreSafe(s)
    ensures s.system == Ready || s.system == Manual || s.system == Error
  {
  }

  lemma CloseZoneKeeps(env: Environment, p: Plant, id: Text)
    requires Interlocked(p)
    ensures var (q, result) := ZoneOperations.CloseZone(env, p, id);
            && Interlocked(q) && LockoutKept(p, q)
            && (result == Ok ==> AllOff(q.store.outputs))
            && (result != Ok && FindZone(p.store.zones, id).Some? && Busy(p.store.zones[FindZone(p.store.zones, id).value]) ==>
                SomeUnknown(q.store.outputs))
  {
    hide StoreSafe, RuntimeStates.CloseZone, ZoneOperations.FaultZone;
    var found := FindZone(p.store.zones, id);
    if found.Some? && Busy(p.store.zones[found.value]) {
      var i := found.value;
      var (switched, driven) := SetOutput(env, p, p.store.zones[i].output, false);
      OnlyBusy(p.store, i);
      if driven != Ok {
        FaultZoneKeeps(env, switched, i, Unknown);
        assert ZoneOperations.CloseZone(env, p, id).0.store.outputs[p.store.zones[i].output] == Unknown;
      } else {
        CloseIsSafe(p.store, i);
        FaultRecordedAppend(p.events, ZoneEvent(Now(env, switched), Closed, id));
      }
    }
  }

  /** A busy zone is the only one. */
  lemma OnlyBusy(s: RuntimeState, i: nat)
    requires StoreSafe(s) && i < |s.zones| && Busy(s.zones[i])
    ensures ZonesDistinct(s.zones) && forall j | 0 <= j < |s.zones| && j != i :: !Busy(s.zones[j])
  {
  }
}
