/**
 A task that nobody interrupts does exactly what the sequential service does, with the same result, events and clock readings: the
 fine grain refines the services.
 */
module SoloTasks {
  import opened Bytes
  import opened Common
  import opened RuntimeStates
  import opened Plants
  import opened Interlock
  import opened Interleaving
  import ZoneOperations
  import MasterOperations

  function SharedOf(p: Plant): Shared {
    Shared(p, true, true)
  }

  /** What the environment answers next. */
  function Answer(env: Environment, p: Plant): Choice {
    Choice(RequestSafeClose, Now(env, p), env.outputs(|p.commands|), env.valve(p.valveCalls))
  }

  predicate Leaving(task: Task) {
    task.ZoneUnlock? || task.MasterUnlock?
  }

  /** At most `k` steps of a task that nobody interrupts, until it is about to release its lock. */
  function Solo(env: Environment, s: Shared, task: Task, k: nat): (Shared, Task)
    decreases k
  {
    if k == 0 || Leaving(task) then (s, task)
    else
      var (q, next) := Act(s, task, Answer(env, s.plant));
      Solo(env, q, next, k - 1)
  }

  /** Uninterrupted, the task comes to its unlock with that plant and result. */
  ghost predicate Ends(env: Environment, p: Plant, task: Task, q: Plant, unlock: Task) {
    Leaving(unlock) && exists k: nat :: Solo(env, SharedOf(p), task, k) == (SharedOf(q), unlock)
  }

  lemma EndsHere(env: Environment, p: Plant, unlock: Task)
    requires Leaving(unlock)
    ensures Ends(env, p, unlock, p, unlock)
  {
    assert Solo(env, SharedOf(p), unlock, 0) == (SharedOf(p), unlock);
  }

  lemma EndsAfter(env: Environment, p: Plant, task: Task, p1: Plant, next: Task, q: Plant, unlock: Task)
    requires !Leaving(task) && Act(SharedOf(p), task, Answer(env, p)) == (SharedOf(p1), next) && Ends(env, p1, next, q, unlock)
    ensures Ends(env, p, task, q, unlock)
  {
    hide Act;
    var k: nat :| Solo(env, SharedOf(p1), next, k) == (SharedOf(q), unlock);
    assert Solo(env, SharedOf(p), task, k + 1) == (SharedOf(q), unlock);
  }

  /** One step of an open, of a close, of a master valve operation. */
  lemma OpenStep(env: Environment, p: Plant, task: Task, p1: Plant, next: Task, q: Plant, unlock: Task)
    requires OpeningTask(task) && ActOpen(SharedOf(p), task, Answer(env, p)) == (SharedOf(p1), next) && Ends(env, p1, next, q, unlock)
    ensures Ends(env, p, task, q, unlock)
  {
    hide Act, ActOpen, Ends;
    StepOfOpen(SharedOf(p), task, Answer(env, p));
    EndsAfter(env, p, task, p1, next, q, unlock);
  }

  lemma CloseStep(env: Environment, p: Plant, task: Task, p1: Plant, next: Task, q: Plant, unlock: Task)
    requires ClosingTask(task) && ActClose(SharedOf(p), task, Answer(env, p)) == (SharedOf(p1), next) && Ends(env, p1, next, q, unlock)
    ensures Ends(env, p, task, q, unlock)
  {
    hide Act, ActClose, Ends;
    StepOfClose(SharedOf(p), task, Answer(env, p));
    EndsAfter(env, p, task, p1, next, q, unlock);
  }

  lemma MasterStepEnds(env: Environment, p: Plant, task: Task, p1: Plant, next: Task, q: Plant, unlock: Task)
    requires MasterTask(task) && !task.MasterUnlock?
    requires ActMaster(SharedOf(p), task, Answer(env, p)) == (SharedOf(p1), next) && Ends(env, p1, next, q, unlock)
    ensures Ends(env, p, task, q, unlock)
  {
    hide Act, ActMaster, Ends;
    StepOfMaster(SharedOf(p), task, Answer(env, p));
    EndsAfter(env, p, task, p1, next, q, unlock);
  }

  // ----- Opening a zone -----

  /** A fault is recorded, and published if it could be. */
  lemma FaultEnds(env: Environment, p: Plant, id: Text, output: OutputIndex, level: OutputState, error: IrrigationResult)
    ensures Ends(env, p, OpenFault(id, output, level, error), ZoneOperations.FaultZone(env, p, id, level), ZoneUnlock(error))
  {
    hide Ends, RecordZoneFault, ExecutionEvents, ZoneOperations.ZoneFrame;
    var (store, result) := RecordZoneFault(p.store, id, level);
    var q := p.(store := store);
    if result == Ok {
      var published := PublishZone(env, q, Faulted, id);
      EndsHere(env, published, ZoneUnlock(error));
      OpenStep(env, q, OpenFaulted(id, error), published, ZoneUnlock(error), published, ZoneUnlock(error));
      OpenStep(env, p, OpenFault(id, output, level, error), q, OpenFaulted(id, error), published, ZoneUnlock(error));
    } else {
      EndsHere(env, q, ZoneUnlock(error));
      OpenStep(env, p, OpenFault(id, output, level, error), q, ZoneUnlock(error), q, ZoneUnlock(error));
    }
  }

  /** The drive failed: off again, and a fault. */
  lemma SafeOffEnds(env: Environment, p: Plant, id: Text, output: OutputIndex, error: IrrigationResult)
    ensures var (safe, safeOff) := SetOutput(env, p, output, false); var level := if safeOff == Ok then Off else Unknown;
            Ends(env, p, OpenSafeOff(id, output, error), ZoneOperations.FaultZone(env, safe, id, level), ZoneUnlock(error))
  {
    hide Ends, RecordZoneFault, ExecutionEvents, ZoneOperations.FaultZone, Driven;
    var (safe, safeOff) := SetOutput(env, p, output, false);
    var level := if safeOff == Ok then Off else Unknown;
    FaultEnds(env, safe, id, output, level, error);
    OpenStep(env, p, OpenSafeOff(id, output, error), safe, OpenFault(id, output, level, error),
             ZoneOperations.FaultZone(env, safe, id, level), ZoneUnlock(error));
  }

  /** The drive succeeded: the commit, and its publication or its undoing. */
  lemma CommitEnds(env: Environment, p: Plant, id: Text, output: OutputIndex, effective: u32)
    ensures var (q, result) := ZoneOperations.CommitOpen(env, p, id, output, effective);
            Ends(env, p, OpenCommit(id, output, effective), q, ZoneUnlock(result))
  {
    hide Ends, RecordZoneFault, ExecutionEvents, ZoneOperations.FaultZone, Driven, RuntimeStates.OpenZone;
    var (store, recorded) := RuntimeStates.OpenZone(p.store, id, Now(env, p), effective);
    var open := Tick(p).(store := store);
    if recorded == Ok {
      var published := PublishZone(env, open, Opened, id);
      EndsHere(env, published, ZoneUnlock(Ok));
      OpenStep(env, open, OpenPublish(id), published, ZoneUnlock(Ok), published, ZoneUnlock(Ok));
      OpenStep(env, p, OpenCommit(id, output, effective), open, OpenPublish(id), published, ZoneUnlock(Ok));
    } else {
      var undone := SetOutput(env, open, output, false).0;
      var faulted := ZoneOperations.FaultZone(env, undone, id, Unknown);
      FaultEnds(env, undone, id, output, Unknown, recorded);
      OpenStep(env, open, OpenUndo(id, output, recorded), undone, OpenFault(id, output, Unknown, recorded), faulted, ZoneUnlock(recorded));
      OpenStep(env, p, OpenCommit(id, output, effective), open, OpenUndo(id, output, recorded), faulted, ZoneUnlock(recorded));
    }
  }

  lemma ActuateEnds(env: Environment, p: Plant, i: nat, id: Text, duration: u32)
    requires FindZone(p.store.zones, id) == Some(i)
    ensures var (q, result) := ZoneOperations.Actuate(env, p, i, id, duration); Ends(env, p, OpenPrepare(id, duration), q, ZoneUnlock(result))
  {
    hide Ends, RuntimeStates.OpenZone, RuntimeStates.PrepareZoneOpen, RecordZoneFault, ZoneOperations.FaultZone, Driven, ExecutionEvents,
         FindZone, ZoneOperations.ZoneFrame;
    var prepared := RuntimeStates.PrepareZoneOpen(p.store, id);
    var (q, result) := ZoneOperations.Actuate(env, p, i, id, duration);
    if prepared != Ok {
      EndsHere(env, p, ZoneUnlock(prepared));
      OpenStep(env, p, OpenPrepare(id, duration), p, ZoneUnlock(prepared), p, ZoneUnlock(prepared));
    } else {
      var output := p.store.zones[i].output;
      var effective := if duration == 0 then p.store.zones[i].duration else duration;
      var (switched, driven) := SetOutput(env, p, output, true);
      if driven != Ok { SafeOffEnds(env, switched, id, output, driven); } else { CommitEnds(env, switched, id, output, effective); }
      var next := if driven == Ok then OpenCommit(id, output, effective) else OpenSafeOff(id, output, driven);
      OpenStep(env, p, OpenDrive(id, output, effective), switched, next, q, ZoneUnlock(result));
      OpenStep(env, p, OpenPrepare(id, duration), p, OpenDrive(id, output, effective), q, ZoneUnlock(result));
    }
  }

  lemma PreconditionEnds(env: Environment, p: Plant, i: nat, id: Text, duration: u32)
    requires FindZone(p.store.zones, id) == Some(i) && p.store.master.state == MasterOpen
    ensures var manual := if p.store.system == Ready then p.(store := p.store.(system := Manual)) else p;
            var (q, result) := ZoneOperations.Actuate(env, manual, i, id, duration);
            Ends(env, p, OpenPrecondition(id, duration, p.store.system), q, ZoneUnlock(result))
  {
    hide Ends, ZoneOperations.Actuate, ZoneOperations.ZoneFrame, RuntimeStates.PrepareZoneOpen, RuntimeStates.OpenZone, RecordZoneFault, FindZone;
    var manual := if p.store.system == Ready then p.(store := p.store.(system := Manual)) else p;
    var (q, result) := ZoneOperations.Actuate(env, manual, i, id, duration);
    ActuateEnds(env, manual, i, id, duration);
    if p.store.system == Ready {
      OpenStep(env, p, OpenTransition(id, duration), manual, OpenPrepare(id, duration), q, ZoneUnlock(result));
      OpenStep(env, p, OpenPrecondition(id, duration, Ready), p, OpenTransition(id, duration), q, ZoneUnlock(result));
    } else {
      OpenStep(env, p, OpenPrecondition(id, duration, p.store.system), p, OpenPrepare(id, duration), q, ZoneUnlock(result));
    }
  }

  /** Uninterrupted, the steps of an open are the open of the zone service: same plant, same result. */
  lemma SoloOpenIsOpen(env: Environment, p: Plant, id: Text, duration: u32)
    ensures var (q, result) := ZoneOperations.OpenZone(env, p, id, duration); Ends(env, p, OpenRead(id, duration), q, ZoneUnlock(result))
  {
    hide Ends, ZoneOperations.Actuate, ZoneOperations.ZoneFrame, FindZone, AllOff, RuntimeStates.PrepareZoneOpen, RuntimeStates.OpenZone,
         RecordZoneFault;
    var (q, result) := ZoneOperations.OpenZone(env, p, id, duration);
    var found := FindZone(p.store.zones, id);
    if found.None? {
      EndsHere(env, p, ZoneUnlock(NotFound));
      OpenStep(env, p, OpenRead(id, duration), p, ZoneUnlock(NotFound), p, ZoneUnlock(NotFound));
    } else {
      var zone := p.store.zones[found.value];
      var snapshot := OpenSnapshot(id, duration, zone);
      if zone.state != ZoneIdle || p.store.master.state != MasterOpen || !AllOff(p.store.outputs) {
        EndsHere(env, p, ZoneUnlock(InvalidState));
        OpenStep(env, p, snapshot, p, ZoneUnlock(InvalidState), p, ZoneUnlock(InvalidState));
      } else {
        PreconditionEnds(env, p, found.value, id, duration);
        OpenStep(env, p, snapshot, p, OpenPrecondition(id, duration, p.store.system), q, ZoneUnlock(result));
      }
      OpenStep(env, p, OpenRead(id, duration), p, snapshot, q, ZoneUnlock(result));
    }
  }

  // ----- Closing zones -----

  /** A fault during a close, and what follows. */
  lemma CloseFaultEnds(env: Environment, p: Plant, id: Text, output: OutputIndex, error: IrrigationResult, after: After, q: Plant, unlock: Task)
    requires Ends(env, ZoneOperations.FaultZone(env, p, id, Unknown), Continue(after, error), q, unlock)
    ensures Ends(env, p, CloseFault(id, output, error, after), q, unlock)
  {
    hide Ends, RecordZoneFault, ExecutionEvents, ZoneOperations.ZoneFrame, Continue;
    var (store, result) := RecordZoneFault(p.store, id, Unknown);
    var recorded := p.(store := store);
    if result == Ok {
      CloseStep(env, recorded, CloseFaulted(id, error, after), PublishZone(env, recorded, Faulted, id), Continue(after, error), q, unlock);
      CloseStep(env, p, CloseFault(id, output, error, after), recorded, CloseFaulted(id, error, after), q, unlock);
    } else {
      CloseStep(env, p, CloseFault(id, output, error, after), recorded, Continue(after, error), q, unlock);
    }
  }

  lemma CloseCommitEnds(env: Environment, p: Plant, id: Text, output: OutputIndex, after: After, q: Plant, unlock: Task)
    requires var (store, closed) := RuntimeStates.CloseZone(p.store, id); var c := p.(store := store);
             Ends(env, if closed == Ok then PublishZone(env, c, Closed, id) else c, Continue(after, closed), q, unlock)
    ensures Ends(env, p, CloseCommit(id, output, after), q, unlock)
  {
    hide Ends, RuntimeStates.CloseZone, ExecutionEvents, Continue;
    var (store, closed) := RuntimeStates.CloseZone(p.store, id);
    var c := p.(store := store);
    if closed == Ok {
      CloseStep(env, c, ClosePublish(id, after), PublishZone(env, c, Closed, id), Continue(after, Ok), q, unlock);
      CloseStep(env, p, CloseCommit(id, output, after), c, ClosePublish(id, after), q, unlock);
    } else {
      CloseStep(env, p, CloseCommit(id, output, after), c, Continue(after, closed), q, unlock);
    }
  }

  /** Uninterrupted, the steps of a close are the close of the zone service, and then the task goes on with its result. */
  lemma CloseEnds(env: Environment, p: Plant, id: Text, after: After, q: Plant, unlock: Task)
    requires var (c, result) := ZoneOperations.CloseZone(env, p, id); Ends(env, c, Continue(after, result), q, unlock)
    ensures Ends(env, p, CloseRead(id, after), q, unlock)
  {
    hide Ends, RuntimeStates.CloseZone, RecordZoneFault, ExecutionEvents, ZoneOperations.ZoneFrame, ZoneOperations.FaultZone, FindZone,
         Continue, Driven;
    var found := FindZone(p.store.zones, id);
    var (c, result) := ZoneOperations.CloseZone(env, p, id);
    if found.None? || !Busy(p.store.zones[found.value]) {
      CloseStep(env, p, CloseRead(id, after), p, Continue(after, result), q, unlock);
    } else {
      var output := p.store.zones[found.value].output;
      var (switched, driven) := SetOutput(env, p, output, false);
      if driven == Ok {
        CloseCommitEnds(env, switched, id, output, after, q, unlock);
      } else {
        CloseFaultEnds(env, switched, id, output, driven, after, q, unlock);
      }
      var next := if driven == Ok then CloseCommit(id, output, after) else CloseFault(id, output, driven, after);
      CloseStep(env, p, CloseDrive(id, output, after), switched, next, q, unlock);
      CloseStep(env, p, CloseRead(id, after), p, CloseDrive(id, output, after), q, unlock);
    }
  }

  lemma SoloCloseIsClose(env: Environment, p: Plant, id: Text)
    ensures var (q, result) := ZoneOperations.CloseZone(env, p, id); Ends(env, p, CloseRead(id, Alone), q, ZoneUnlock(result))
  {
    hide Ends, ZoneOperations.CloseZone, ZoneOperations.ZoneFrame;
    var (q, result) := ZoneOperations.CloseZone(env, p, id);
    EndsHere(env, q, ZoneUnlock(result));
    CloseEnds(env, p, id, Alone, q, ZoneUnlock(result));
  }

  lemma {:induction false} SafeNextEnds(env: Environment, p: Plant, snapshot: RuntimeState, index: nat, first: IrrigationResult)
    requires index <= |snapshot.zones|
    ensures var (q, result) := ZoneOperations.SafeCloseFrom(env, p, snapshot, index, first);
            Ends(env, p, SafeNext(snapshot, index, first), q, ZoneUnlock(result))
    decreases |snapshot.zones| - index
  {
    hide Ends, ZoneOperations.CloseZone, ZoneOperations.ZoneFrame, RuntimeStates.CloseZone, RecordZoneFault, FindZone;
    var (q, result) := ZoneOperations.SafeCloseFrom(env, p, snapshot, index, first);
    var task := SafeNext(snapshot, index, first);
    if index == |snapshot.zones| {
      EndsHere(env, p, ZoneUnlock(first));
      CloseStep(env, p, task, p, ZoneUnlock(first), p, ZoneUnlock(first));
    } else if snapshot.outputs[snapshot.zones[index].output] != Off {
      var id, after := snapshot.zones[index].id, SafeRest(snapshot, index, first);
      var (closed, answer) := ZoneOperations.CloseZone(env, p, id);
      SafeNextEnds(env, closed, snapshot, index + 1, if first == Ok then answer else first);
      CloseEnds(env, p, id, after, q, ZoneUnlock(result));
      CloseStep(env, p, task, p, CloseRead(id, after), q, ZoneUnlock(result));
    } else {
      SafeNextEnds(env, p, snapshot, index + 1, first);
      CloseStep(env, p, task, p, SafeNext(snapshot, index + 1, first), q, ZoneUnlock(result));
    }
  }

  lemma SoloSafeCloseIsSafeClose(env: Environment, p: Plant)
    ensures var (q, result) := ZoneOperations.SafeClose(env, p); Ends(env, p, SafeSnapshot, q, ZoneUnlock(result))
  {
    hide Ends, ZoneOperations.SafeCloseFrom, ZoneOperations.ZoneFrame, RuntimeStates.CloseZone, RecordZoneFault, FindZone;
    var (q, result) := ZoneOperations.SafeClose(env, p);
    SafeNextEnds(env, p, p.store, 0, Ok);
    CloseStep(env, p, SafeSnapshot, p, SafeNext(p.store, 0, Ok), q, ZoneUnlock(result));
  }

  lemma {:induction false} TimeoutNextEnds(env: Environment, p: Plant, snapshot: RuntimeState, now: u64, index: nat)
    requires index <= |snapshot.zones|
    ensures var (q, result) := ZoneOperations.TimeoutsFrom(env, p, snapshot, now, index);
            Ends(env, p, TimeoutNext(snapshot, now, index), q, ZoneUnlock(result))
    decreases |snapshot.zones| - index
  {
    hide Ends, ZoneOperations.CloseZone, ZoneOperations.ZoneFrame, RuntimeStates.CloseZone, RecordZoneFault, FindZone, ExecutionEvents;
    var (q, result) := ZoneOperations.TimeoutsFrom(env, p, snapshot, now, index);
    var task := TimeoutNext(snapshot, now, index);
    if index == |snapshot.zones| {
      EndsHere(env, p, ZoneUnlock(Ok));
      CloseStep(env, p, task, p, ZoneUnlock(Ok), p, ZoneUnlock(Ok));
    } else if ZoneOperations.TimedOutAt(snapshot.zones[index], now) {
      ExpiredEnds(env, p, snapshot, now, index);
    } else {
      TimeoutNextEnds(env, p, snapshot, now, index + 1);
      CloseStep(env, p, task, p, TimeoutNext(snapshot, now, index + 1), q, ZoneUnlock(result));
    }
  }

  lemma {:induction false} ExpiredEnds(env: Environment, p: Plant, snapshot: RuntimeState, now: u64, index: nat)
    requires index < |snapshot.zones| && ZoneOperations.TimedOutAt(snapshot.zones[index], now)
    ensures var (q, result) := ZoneOperations.TimeoutsFrom(env, p, snapshot, now, index);
            Ends(env, p, TimeoutNext(snapshot, now, index), q, ZoneUnlock(result))
    decreases |snapshot.zones| - index, 0
  {
    hide Ends, ZoneOperations.CloseZone, ZoneOperations.ZoneFrame, RuntimeStates.CloseZone, RecordZoneFault, FindZone, ExecutionEvents;
    var (q, result) := ZoneOperations.TimeoutsFrom(env, p, snapshot, now, index);
    var id := snapshot.zones[index].id;
    var after := TimeoutRest(snapshot, now, index, id);
    var (closed, answer) := ZoneOperations.CloseZone(env, p, id);
    if answer == Ok {
      var published := PublishZone(env, closed, TimedOut, id);
      TimeoutNextEnds(env, published, snapshot, now, index + 1);
      CloseStep(env, closed, TimeoutPublish(snapshot, now, index, id), published, TimeoutNext(snapshot, now, index + 1), q, ZoneUnlock(result));
    } else {
      EndsHere(env, closed, ZoneUnlock(answer));
    }
    CloseEnds(env, p, id, after, q, ZoneUnlock(result));
    CloseStep(env, p, TimeoutNext(snapshot, now, index), p, CloseRead(id, after), q, ZoneUnlock(result));
  }

  lemma SoloTimeoutsIsTimeouts(env: Environment, p: Plant)
    ensures var (q, result) := ZoneOperations.ProcessTimeouts(env, p); Ends(env, p, TimeoutSnapshot, q, ZoneUnlock(result))
  {
    hide Ends, ZoneOperations.TimeoutsFrom, ZoneOperations.ZoneFrame, RuntimeStates.CloseZone, RecordZoneFault, FindZone;
    var (q, result) := ZoneOperations.ProcessTimeouts(env, p);
    TimeoutNextEnds(env, Tick(p), p.store, Now(env, p), 0);
    CloseStep(env, p, TimeoutSnapshot, Tick(p), TimeoutNext(p.store, Now(env, p), 0), q, ZoneUnlock(result));
  }

  // ----- The master valve -----

  lemma MasterFaultEnds(env: Environment, p: Plant, task: Task, error: IrrigationResult)
    requires task == MasterOpenFault(error) || task == MasterCloseFault(error)
    ensures Ends(env, p, task, p.(store := RecordMasterFault(p.store)), MasterUnlock(error))
  {
    hide Ends;
    var q := p.(store := RecordMasterFault(p.store));
    EndsHere(env, q, MasterUnlock(error));
    MasterStepEnds(env, p, task, q, MasterUnlock(error), q, MasterUnlock(error));
  }

  /** Uninterrupted, the steps of the master valve operations are those of the master valve service. */
  lemma SoloMasterOpenIsOpen(env: Environment, p: Plant)
    ensures var (q, result) := MasterOperations.OpenMaster(env, p); Ends(env, p, MasterOpenRead, q, MasterUnlock(result))
  {
    hide Ends, MasterOperations.MasterFrame;
    var (q, result) := MasterOperations.OpenMaster(env, p);
    if p.store.master.state != MasterClosed && p.store.master.state != MasterFault {
      EndsHere(env, p, MasterUnlock(InvalidState));
      MasterStepEnds(env, p, MasterOpenRead, p, MasterUnlock(InvalidState), p, MasterUnlock(InvalidState));
    } else {
      var (driven, confirmed) := DriveValve(env, p, true);
      if confirmed != Ok {
        MasterFaultEnds(env, driven, MasterOpenFault(confirmed), confirmed);
        MasterStepEnds(env, p, MasterOpenDrive, driven, MasterOpenFault(confirmed), q, MasterUnlock(confirmed));
      } else {
        EndsHere(env, q, MasterUnlock(Ok));
        MasterStepEnds(env, driven, MasterOpenBegin, q, MasterUnlock(Ok), q, MasterUnlock(Ok));
        MasterStepEnds(env, p, MasterOpenDrive, driven, MasterOpenBegin, q, MasterUnlock(Ok));
      }
      MasterStepEnds(env, p, MasterOpenRead, p, MasterOpenDrive, q, MasterUnlock(result));
    }
  }

  lemma SoloMasterProcessIsProcess(env: Environment, p: Plant)
    ensures var (q, result) := MasterOperations.ProcessMaster(env, p); Ends(env, p, MasterProcessRead, q, MasterUnlock(result))
  {
    hide Ends, MasterOperations.MasterFrame, CompletePreOpenDelay;
    var (q, result) := MasterOperations.ProcessMaster(env, p);
    EndsHere(env, q, MasterUnlock(result));
    if p.store.master.state == MasterOpening {
      MasterStepEnds(env, p, MasterProcessComplete, q, MasterUnlock(result), q, MasterUnlock(result));
      MasterStepEnds(env, p, MasterProcessRead, p, MasterProcessComplete, q, MasterUnlock(result));
    } else {
      MasterStepEnds(env, p, MasterProcessRead, p, MasterUnlock(Ok), q, MasterUnlock(result));
    }
  }

  /** From the drive on, with the valve recorded CLOSING. */
  lemma MasterCloseDriveEnds(env: Environment, p: Plant)
    requires p.store.master.state == MasterClosing
    ensures var (driven, confirmed) := DriveValve(env, p, false);
            var store := if confirmed == Ok then CompleteMasterClose(p.store).0 else RecordMasterFault(p.store);
            Ends(env, p, MasterCloseDrive, driven.(store := store), MasterUnlock(confirmed))
  {
    hide Ends;
    var (driven, confirmed) := DriveValve(env, p, false);
    if confirmed != Ok {
      var q := driven.(store := RecordMasterFault(p.store));
      MasterFaultEnds(env, driven, MasterCloseFault(confirmed), confirmed);
      MasterStepEnds(env, p, MasterCloseDrive, driven, MasterCloseFault(confirmed), q, MasterUnlock(confirmed));
    } else {
      var q := driven.(store := CompleteMasterClose(p.store).0);
      EndsHere(env, q, MasterUnlock(Ok));
      MasterStepEnds(env, driven, MasterCloseComplete, q, MasterUnlock(Ok), q, MasterUnlock(Ok));
      MasterStepEnds(env, p, MasterCloseDrive, driven, MasterCloseComplete, q, MasterUnlock(Ok));
    }
  }

  lemma SoloMasterCloseIsClose(env: Environment, p: Plant)
    ensures var (q, result) := MasterOperations.CloseMaster(env, p); Ends(env, p, MasterCloseBegin, q, MasterUnlock(result))
  {
    hide Ends, MasterOperations.MasterFrame, CloseEligible;
    var (q, result) := MasterOperations.CloseMaster(env, p);
    var (store, begun) := BeginMasterClose(p.store);
    var closing := p.(store := store);
    if begun != Ok {
      EndsHere(env, closing, MasterUnlock(begun));
      MasterStepEnds(env, p, MasterCloseBegin, closing, MasterUnlock(begun), closing, MasterUnlock(begun));
    } else {
      MasterCloseDriveEnds(env, closing);
      MasterStepEnds(env, p, MasterCloseBegin, closing, MasterCloseDrive, q, MasterUnlock(result));
    }
  }
}
