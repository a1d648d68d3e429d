/**
 Any number of tasks inside the zone and master valve services at once, interleaved at the grain of single store calls,
 driver calls and lock operations. A store call and a lock operation are atomic; everything between them is not.
 */
module Interleaving {
  import opened Bytes
  import opened Common
  import opened RuntimeStates
  import opened Plants
  import opened Interlock

  // ----- Where a task is -----

  /** What a close goes on with: nothing, the next zone of a safe close, or the next zone of a timeout scan. */
  datatype After =
    | Alone
    | SafeRest(snapshot: RuntimeState, index: nat, first: IrrigationResult)
    | TimeoutRest(snapshot: RuntimeState, now: u64, index: nat, zone: Text)

  /** Errors travel with the task; the two unlocks carry the result of the call. */
  datatype Task =
    | Resting
    | OpenRead(id: Text, duration: u32)
    | OpenSnapshot(id: Text, duration: u32, zone: ZoneRuntime)
    | OpenPrecondition(id: Text, duration: u32, seen: SystemState)
    | OpenTransition(id: Text, duration: u32)
    | OpenPrepare(id: Text, duration: u32)
    | OpenDrive(id: Text, output: OutputIndex, effective: u32)
    | OpenCommit(id: Text, output: OutputIndex, effective: u32)
    | OpenPublish(id: Text)
    | OpenSafeOff(id: Text, output: OutputIndex, error: IrrigationResult)
    | OpenUndo(id: Text, output: OutputIndex, error: IrrigationResult)
    | OpenFault(id: Text, output: OutputIndex, level: OutputState, error: IrrigationResult)
    | OpenFaulted(id: Text, error: IrrigationResult)
    | CloseRead(id: Text, after: After)
    | CloseDrive(id: Text, output: OutputIndex, after: After)
    | CloseFault(id: Text, output: OutputIndex, error: IrrigationResult, after: After)
    | CloseFaulted(id: Text, error: IrrigationResult, after: After)
    | CloseCommit(id: Text, output: OutputIndex, after: After)
    | ClosePublish(id: Text, after: After)
    | SafeSnapshot
    | SafeNext(snapshot: RuntimeState, index: nat, first: IrrigationResult)
    | TimeoutSnapshot
    | TimeoutNext(snapshot: RuntimeState, now: u64, index: nat)
    | TimeoutPublish(snapshot: RuntimeState, now: u64, index: nat, id: Text)
    | ZoneUnlock(result: IrrigationResult)
    | MasterOpenRead
    | MasterOpenDrive
    | MasterOpenBegin
    | MasterOpenFault(error: IrrigationResult)
    | MasterProcessRead
    | MasterProcessComplete
    | MasterCloseBegin
    | MasterCloseDrive
    | MasterCloseComplete
    | MasterCloseFault(error: IrrigationResult)
    | MasterUnlock(result: IrrigationResult)

  datatype Request =
    | RequestOpen(id: Text, duration: u32)
    | RequestClose(id: Text)
    | RequestSafeClose
    | RequestTimeouts
    | RequestMasterOpen
    | RequestMasterProcess
    | RequestMasterClose
    | RequestProgramWrite(program: ProgramRuntime)

  /** What the environment decides at a step: the next request, the clock, and the outcome of a driver call. */
  datatype Choice = Choice(request: Request, now: u64, outcome: SetOutcome, confirmed: IrrigationResult)

  /** The plant that all tasks work on, and the flags of the two locks. */
  datatype Shared = Shared(plant: Plant, zoneLocked: bool, masterLocked: bool)

  datatype Machine = Machine(shared: Shared, tasks: seq<Task>)

  // ----- One step of a task -----

  function WithStore(s: Shared, store: RuntimeState): Shared {
    s.(plant := s.plant.(store := store))
  }

  /** The clock was read. */
  function Ticked(s: Shared): Shared {
    s.(plant := Tick(s.plant))
  }

  function Published(s: Shared, now: u64, kind: ZoneEventKind, zone: Text): Shared {
    s.(plant := s.plant.(events := s.plant.events + [ZoneEvent(now, kind, zone)], ticks := s.plant.ticks + 1))
  }

  function Drive(s: Shared, output: OutputIndex, on: bool, outcome: SetOutcome): Shared {
    s.(plant := s.plant.(relays := Driven(s.plant.relays, Command(output, on), outcome),
                         commands := s.plant.commands + [Command(output, on)]))
  }

  function MoveValve(s: Shared, open: bool, outcome: IrrigationResult): Shared {
    s.(plant := s.plant.(valve := Moved(open, outcome), valveCalls := s.plant.valveCalls + 1))
  }

  function Begin(s: Shared, request: Request): (Shared, Task) {
    match request
    case RequestProgramWrite(program) => (WithStore(s, s.plant.store.(program := program)), Resting)
    case RequestMasterOpen => if s.masterLocked then (s, Resting) else (s.(masterLocked := true), MasterOpenRead)
    case RequestMasterProcess => if s.masterLocked then (s, Resting) else (s.(masterLocked := true), MasterProcessRead)
    case RequestMasterClose => if s.masterLocked then (s, Resting) else (s.(masterLocked := true), MasterCloseBegin)
    case RequestOpen(id, duration) => if s.zoneLocked then (s, Resting) else (s.(zoneLocked := true), OpenRead(id, duration))
    case RequestClose(id) => if s.zoneLocked then (s, Resting) else (s.(zoneLocked := true), CloseRead(id, Alone))
    case RequestSafeClose => if s.zoneLocked then (s, Resting) else (s.(zoneLocked := true), SafeSnapshot)
    case RequestTimeouts => if s.zoneLocked then (s, Resting) else (s.(zoneLocked := true), TimeoutSnapshot)
  }

  predicate OpeningTask(task: Task) {
    || task.OpenRead? || task.OpenSnapshot? || task.OpenPrecondition? || task.OpenTransition? || task.OpenPrepare?
    || task.OpenDrive? || task.OpenCommit? || task.OpenPublish? || task.OpenSafeOff? || task.OpenUndo? || task.OpenFault?
    || task.OpenFaulted?
  }

  function ActOpen(s: Shared, task: Task, choice: Choice): (Shared, Task)
    requires OpeningTask(task)
  {
    var store := s.plant.store;
    match task
    case OpenRead(id, duration) =>
      var found := FindZone(store.zones, id);
      (s, if found.None? then ZoneUnlock(NotFound) else OpenSnapshot(id, duration, store.zones[found.value]))
    case OpenSnapshot(id, duration, zone) =>
      (s, if zone.state == ZoneIdle && store.master.state == MasterOpen && AllOff(store.outputs)
          then OpenPrecondition(id, duration, store.system) else ZoneUnlock(InvalidState))
    case OpenPrecondition(id, duration, seen) =>
      (s, if store.master.state != MasterOpen then ZoneUnlock(InvalidState)
          else if seen == Ready then OpenTransition(id, duration) else OpenPrepare(id, duration))
    case OpenTransition(id, duration) =>
      var (next, result) := TransitionSystem(store, Manual);
      (WithStore(s, next), if result == Ok then OpenPrepare(id, duration) else ZoneUnlock(result))
    case OpenPrepare(id, duration) =>
      if PrepareZoneOpen(store, id) != Ok then (s, ZoneUnlock(PrepareZoneOpen(store, id)))
      else
        var zone := store.zones[FindZone(store.zones, id).value];
        (s, OpenDrive(id, zone.output, if duration == 0 then zone.duration else duration))
    case OpenDrive(id, output, effective) =>
      (Drive(s, output, true, choice.outcome),
       if choice.outcome.Done? then OpenCommit(id, output, effective) else OpenSafeOff(id, output, choice.outcome.error))
    case OpenCommit(id, output, effective) =>
      var (next, result) := OpenZone(store, id, choice.now, effective);
      (Ticked(WithStore(s, next)), if result == Ok then OpenPublish(id) else OpenUndo(id, output, result))
    case OpenPublish(id) => (Published(s, choice.now, Opened, id), ZoneUnlock(Ok))
    case OpenSafeOff(id, output, error) =>
      (Drive(s, output, false, choice.outcome), OpenFault(id, output, if choice.outcome.Done? then Off else Unknown, error))
    case OpenUndo(id, output, error) => (Drive(s, output, false, choice.outcome), OpenFault(id, output, Unknown, error))
    case OpenFault(id, output, level, error) =>
      var (next, result) := RecordZoneFault(store, id, level);
      (WithStore(s, next), if result == Ok then OpenFaulted(id, error) else ZoneUnlock(error))
    case OpenFaulted(id, error) => (Published(s, choice.now, Faulted, id), ZoneUnlock(error))
  }

  /** After the close of a zone. */
  function Continue(after: After, result: IrrigationResult): Task {
    match after
    case Alone => ZoneUnlock(result)
    case SafeRest(snapshot, index, first) => SafeNext(snapshot, index + 1, if first == Ok then result else first)
    case TimeoutRest(snapshot, now, index, zone) =>
      if result == Ok then TimeoutPublish(snapshot, now, index, zone) else ZoneUnlock(result)
  }

  predicate ClosingTask(task: Task) {
    || task.CloseRead? || task.CloseDrive? || task.CloseFault? || task.CloseFaulted? || task.CloseCommit? || task.ClosePublish?
    || task.SafeSnapshot? || task.SafeNext? || task.TimeoutSnapshot? || task.TimeoutNext? || task.TimeoutPublish?
  }

  function ActClose(s: Shared, task: Task, choice: Choice): (Shared, Task)
    requires ClosingTask(task)
  {
    var store := s.plant.store;
    match task
    case CloseRead(id, after) =>
      var found := FindZone(store.zones, id);
      (s, if found.None? then Continue(after, NotFound)
          else if store.zones[found.value].state != ZoneOpen && store.zones[found.value].state != ZoneFault
          then Continue(after, InvalidState)
          else CloseDrive(id, store.zones[found.value].output, after))
    case CloseDrive(id, output, after) =>
      (Drive(s, output, false, choice.outcome),
       if choice.outcome.Done? then CloseCommit(id, output, after) else CloseFault(id, output, choice.outcome.error, after))
    case CloseFault(id, output, error, after) =>
      var (next, result) := RecordZoneFault(store, id, Unknown);
      (WithStore(s, next), if result == Ok then CloseFaulted(id, error, after) else Continue(after, error))
    case CloseFaulted(id, error, after) => (Published(s, choice.now, Faulted, id), Continue(after, error))
    case CloseCommit(id, output, after) =>
      var (next, result) := CloseZone(store, id);
      (WithStore(s, next), if result == Ok then ClosePublish(id, after) else Continue(after, result))
    case ClosePublish(id, after) => (Published(s, choice.now, Closed, id), Continue(after, Ok))
    case SafeSnapshot => (s, SafeNext(store, 0, Ok))
    case SafeNext(snapshot, index, first) =>
      (s, if index >= |snapshot.zones| then ZoneUnlock(first)
          else if snapshot.outputs[snapshot.zones[index].output] != Off
          then CloseRead(snapshot.zones[index].id, SafeRest(snapshot, index, first)) else SafeNext(snapshot, index + 1, first))
    case TimeoutSnapshot => (Ticked(s), TimeoutNext(store, choice.now, 0))
    case TimeoutNext(snapshot, now, index) =>
      (s, if index >= |snapshot.zones| then ZoneUnlock(Ok)
          else if snapshot.zones[index].state == ZoneOpen && snapshot.zones[index].duration != 0 &&
                  Elapsed(now, snapshot.zones[index].openedAt) >= snapshot.zones[index].duration
          then CloseRead(snapshot.zones[index].id, TimeoutRest(snapshot, now, index, snapshot.zones[index].id))
          else TimeoutNext(snapshot, now, index + 1))
    case TimeoutPublish(snapshot, now, index, zone) =>
      (Published(s, choice.now, TimedOut, zone), TimeoutNext(snapshot, now, index + 1))
  }

  function ActMaster(s: Shared, task: Task, choice: Choice): (Shared, Task)
    requires MasterTask(task) && !task.MasterUnlock?
  {
    var store := s.plant.store;
    match task
    case MasterOpenRead =>
      (s, if store.master.state == MasterClosed || store.master.state == MasterFault then MasterOpenDrive else MasterUnlock(InvalidState))
    case MasterOpenDrive =>
      (MoveValve(s, true, choice.confirmed), if choice.confirmed == Ok then MasterOpenBegin else MasterOpenFault(choice.confirmed))
    case MasterOpenBegin =>
      var (next, result) := BeginMasterOpen(store, choice.now);
      (Ticked(WithStore(s, next)), if result == Ok then MasterUnlock(Ok) else MasterOpenFault(result))
    case MasterOpenFault(error) => (WithStore(s, RecordMasterFault(store)), MasterUnlock(error))
    case MasterProcessRead => (s, if store.master.state == MasterOpening then MasterProcessComplete else MasterUnlock(Ok))
    case MasterProcessComplete =>
      var (next, result) := CompletePreOpenDelay(store, choice.now);
      (Ticked(WithStore(s, next)), MasterUnlock(if result == Timeout then Ok else result))
    case MasterCloseBegin =>
      var (next, result) := BeginMasterClose(store);
      (WithStore(s, next), if result == Ok then MasterCloseDrive else MasterUnlock(result))
    case MasterCloseDrive =>
      (MoveValve(s, false, choice.confirmed), if choice.confirmed == Ok then MasterCloseComplete else MasterCloseFault(choice.confirmed))
    case MasterCloseComplete =>
      var (next, result) := CompleteMasterClose(store);
      (WithStore(s, next), if result == Ok then MasterUnlock(Ok) else MasterCloseFault(result))
    case MasterCloseFault(error) => (WithStore(s, RecordMasterFault(store)), MasterUnlock(error))
  }

  /** Whether a task is between acquiring and releasing the lock of the master valve service. */
  predicate MasterTask(task: Task) {
    || task.MasterOpenRead? || task.MasterOpenDrive? || task.MasterOpenBegin? || task.MasterOpenFault?
    || task.MasterProcessRead? || task.MasterProcessComplete?
    || task.MasterCloseBegin? || task.MasterCloseDrive? || task.MasterCloseComplete? || task.MasterCloseFault?
    || task.MasterUnlock?
  }

  /** Whether a task is between acquiring and releasing the lock of the zone service. */
  predicate ZoneTask(task: Task) {
    !task.Resting? && !MasterTask(task)
  }

  function Act(s: Shared, task: Task, choice: Choice): (Shared, Task) {
    if task.Resting? then Begin(s, choice.request)
    else if task.MasterUnlock? then (s.(masterLocked := false), Resting)
    else if task.ZoneUnlock? then (s.(zoneLocked := false), Resting)
    else if MasterTask(task) then ActMaster(s, task, choice)
    else if ClosingTask(task) then ActClose(s, task, choice)
    else ActOpen(s, task, choice)
  }

  function Step(m: Machine, t: nat, choice: Choice): Machine
    requires t < |m.tasks|
  {
    var (shared, task) := Act(m.shared, m.tasks[t], choice);
    Machine(shared, m.tasks[t := task])
  }

  /** A schedule: which task moves, and what the environment decides. Steps of tasks that do not exist do nothing. */
  function Interleave(m: Machine, schedule: seq<(nat, Choice)>): (n: Machine)
    ensures |n.tasks| == |m.tasks|
  {
    if schedule == [] then m
    else
      var before, last := Interleave(m, schedule[..|schedule| - 1]), schedule[|schedule| - 1];
      if last.0 < |before.tasks| then Step(before, last.0, last.1) else before
  }

  // ----- What holds at every step -----

  /** Opening `id` on `output` is decided: its zone is idle, everything is off, and the system is MANUAL. */
  predicate Decided(s: Shared, id: Text, output: OutputIndex) {
    && AllOff(s.plant.store.outputs) && s.plant.store.system == Manual
    && var found := FindZone(s.plant.store.zones, id);
       found.Some? && s.plant.store.zones[found.value].output == output && s.plant.store.zones[found.value].state == ZoneIdle
  }

  predicate Closing(s: Shared, id: Text, output: OutputIndex) {
    var found := FindZone(s.plant.store.zones, id);
    found.Some? && s.plant.store.zones[found.value].output == output && Busy(s.plant.store.zones[found.value])
  }

  /** What the holder of the zone lock knows. Only holders of that lock change zones, outputs, relays and the system state. */
  predicate ZoneFacts(s: Shared, task: Task) {
    match task
    case OpenDrive(id, output, _) => Decided(s, id, output)
    case OpenCommit(id, output, _) => Decided(s, id, output)
    case OpenSafeOff(id, output, _) => Decided(s, id, output)
    case OpenUndo(id, output, _) => Decided(s, id, output)
    case OpenFault(id, output, level, _) =>
      Decided(s, id, output) && (level == Unknown || (level == Off && !s.plant.relays[output]))
    case OpenFaulted(_, _) => s.plant.store.system == Error
    case CloseDrive(id, output, _) => Closing(s, id, output)
    case CloseFault(id, output, _, _) => Closing(s, id, output)
    case CloseFaulted(_, _, _) => s.plant.store.system == Error
    case CloseCommit(id, output, _) => Closing(s, id, output) && !s.plant.relays[output]
    case _ => true
  }

  /** The one output whose relay may be energised while it is still recorded OFF. */
  function Window(task: Task): Option<OutputIndex> {
    match task
    case OpenCommit(_, output, _) => Some(output)
    case OpenSafeOff(_, output, _) => Some(output)
    case OpenUndo(_, output, _) => Some(output)
    case OpenFault(_, output, _, _) => Some(output)
    case CloseFault(_, output, _, _) => Some(output)
    case _ => None
  }

  predicate RelaysWithin(s: Shared, window: Option<OutputIndex>) {
    forall o: OutputIndex | s.plant.relays[o] :: s.plant.store.outputs[o] != Off || window == Some(o)
  }

  /** What the holder of the master lock knows. Only holders of that lock change the master valve. */
  predicate MasterFacts(s: Shared, task: Task) {
    match task
    case MasterOpenDrive => s.plant.store.master.state == MasterClosed || s.plant.store.master.state == MasterFault
    case MasterOpenBegin => (s.plant.store.master.state == MasterClosed || s.plant.store.master.state == MasterFault) && s.plant.valve == ValveOpened
    case MasterOpenFault(_) => s.plant.store.master.state == MasterClosed || s.plant.store.master.state == MasterFault
    case MasterCloseDrive => s.plant.store.master.state == MasterClosing
    case MasterCloseComplete => s.plant.store.master.state == MasterClosing
    case MasterCloseFault(_) => s.plant.store.master.state == MasterClosing
    case _ => true
  }

  predicate OpenValveConfirmed(s: Shared) {
    s.plant.store.master.state == MasterOpening || s.plant.store.master.state == MasterOpen ==> s.plant.valve == ValveOpened
  }

  /** Once a fault has been published the system is in ERROR. */
  predicate FaultsStop(s: Shared) {
    FaultRecorded(s.plant.events) ==> s.plant.store.system == Error
  }

  /** At most one task holds each lock, and the flag says whether one does. */
  predicate Exclusive(m: Machine) {
    && (forall t, u | 0 <= t < u < |m.tasks| :: !(ZoneTask(m.tasks[t]) && ZoneTask(m.tasks[u])))
    && (forall t, u | 0 <= t < u < |m.tasks| :: !(MasterTask(m.tasks[t]) && MasterTask(m.tasks[u])))
    && (forall t | 0 <= t < |m.tasks| :: ZoneTask(m.tasks[t]) ==> m.shared.zoneLocked)
    && (forall t | 0 <= t < |m.tasks| :: MasterTask(m.tasks[t]) ==> m.shared.masterLocked)
  }

  predicate Invariant(m: Machine) {
    && Exclusive(m) && StoreSafe(m.shared.plant.store) && OpenValveConfirmed(m.shared) && FaultsStop(m.shared)
    && (forall t | 0 <= t < |m.tasks| && MasterTask(m.tasks[t]) :: MasterFacts(m.shared, m.tasks[t]))
    && (forall t | 0 <= t < |m.tasks| && ZoneTask(m.tasks[t]) ::
          ZoneFacts(m.shared, m.tasks[t]) && RelaysWithin(m.shared, Window(m.tasks[t])))
    && (m.shared.zoneLocked || RelaysWithin(m.shared, None))
  }

  /** Which part of the machine takes a step. */
  lemma StepOfOpen(s: Shared, task: Task, choice: Choice)
    requires OpeningTask(task)
    ensures Act(s, task, choice) == ActOpen(s, task, choice)
  {
    hide ActOpen, ActClose, ActMaster, Begin;
  }

  lemma StepOfClose(s: Shared, task: Task, choice: Choice)
    requires ClosingTask(task)
    ensures Act(s, task, choice) == ActClose(s, task, choice)
  {
    hide ActOpen, ActClose, ActMaster, Begin;
  }

  lemma StepOfMaster(s: Shared, task: Task, choice: Choice)
    requires MasterTask(task) && !task.MasterUnlock?
    ensures Act(s, task, choice) == ActMaster(s, task, choice)
  {
    hide ActOpen, ActClose, ActMaster, Begin;
  }

  // ----- Steps of the holder of the zone lock -----

  predicate ZoneSideOnly(s: Shared, q: Shared) {
    && q.plant.store.master == s.plant.store.master && q.plant.valve == s.plant.valve
    && q.zoneLocked == s.zoneLocked && q.masterLocked == s.masterLocked
  }

  /** What a step does to the lockout. */
  predicate StepLockout(s: Shared, q: Shared) {
    && (s.plant.store.system == Error ==> q.plant.store.system == Error && OnlyOffAfter(s.plant.commands, q.plant.commands))
    && (FaultsStop(s) ==> FaultsStop(q))
  }

  predicate ZoneStepKept(s: Shared, task: Task, q: Shared, next: Task) {
    && ZoneSideOnly(s, q) && ZoneTask(next) && StoreSafe(q.plant.store) && ZoneFacts(q, next) && RelaysWithin(q, Window(next))
    && StepLockout(s, q)
  }

  lemma DecidedMeans(s: Shared, id: Text, output: OutputIndex) returns (i: nat)
    requires StoreSafe(s.plant.store) && Decided(s, id, output)
    ensures i < |s.plant.store.zones| && s.plant.store.zones[i].id == id && s.plant.store.zones[i].output == output && s.plant.store.zones[i].state == ZoneIdle
    ensures FindZone(s.plant.store.zones, id) == Some(i) && forall j | 0 <= j < |s.plant.store.zones| :: !Busy(s.plant.store.zones[j])
  {
    i := FindZone(s.plant.store.zones, id).value;
    BusyMeans(s.plant.store);
  }

  lemma ClosingMeans(s: Shared, id: Text, output: OutputIndex) returns (i: nat)
    requires StoreSafe(s.plant.store) && Closing(s, id, output)
    ensures i < |s.plant.store.zones| && s.plant.store.zones[i].id == id && s.plant.store.zones[i].output == output && Busy(s.plant.store.zones[i])
    ensures FindZone(s.plant.store.zones, id) == Some(i) && forall j | 0 <= j < |s.plant.store.zones| && j != i :: !Busy(s.plant.store.zones[j])
  {
    i := FindZone(s.plant.store.zones, id).value;
    OnlyBusy(s.plant.store, i);
  }

  /** What the tasks publish says FAULT only where ERROR is recorded. */
  lemma PublishStops(s: Shared, now: u64, kind: ZoneEventKind, zone: Text)
    requires kind == Faulted ==> s.plant.store.system == Error
    ensures StepLockout(s, Published(s, now, kind, zone))
  {
    FaultRecordedAppend(s.plant.events, ZoneEvent(now, kind, zone));
  }

  /** Without a publication the faults are those before. */
  lemma QuietStep(s: Shared, q: Shared)
    requires q.plant.events == s.plant.events
    requires s.plant.store.system == Error ==> q.plant.store.system == Error && OnlyOffAfter(s.plant.commands, q.plant.commands)
    ensures StepLockout(s, q)
  {
  }

  lemma OpenEarlyKept(s: Shared, task: Task, choice: Choice)
    requires StoreSafe(s.plant.store) && RelaysWithin(s, None)
    requires task.OpenRead? || task.OpenSnapshot? || task.OpenPrecondition? || task.OpenTransition? || task.OpenPrepare?
    ensures var (q, next) := ActOpen(s, task, choice); ZoneStepKept(s, task, q, next)
  {
    hide StoreSafe, FindZone, FaultRecorded;
    if task.OpenTransition? && s.plant.store.system == Ready { ManualIsSafe(s.plant.store); }
  }

  lemma OpenDriveKept(s: Shared, task: Task, choice: Choice)
    requires StoreSafe(s.plant.store) && ZoneFacts(s, task) && RelaysWithin(s, Window(task))
    requires task.OpenDrive? || task.OpenSafeOff? || task.OpenUndo?
    ensures var (q, next) := ActOpen(s, task, choice); ZoneStepKept(s, task, q, next)
  {
    hide StoreSafe, FindZone, AllOff, FaultRecorded;
  }

  lemma OpenCommitKept(s: Shared, task: Task, choice: Choice)
    requires StoreSafe(s.plant.store) && ZoneFacts(s, task) && RelaysWithin(s, Window(task)) && task.OpenCommit?
    ensures var (q, next) := ActOpen(s, task, choice); ZoneStepKept(s, task, q, next)
  {
    hide StoreSafe, FindZone, OpenZone, AllOff, FaultRecorded;
    var i := DecidedMeans(s, task.id, task.output);
    if s.plant.store.master.state == MasterOpen {
      OpenIsSafe(s.plant.store, i, choice.now, task.effective);
      OpenKeepsMaster(s.plant.store, task.id, choice.now, task.effective);
    } else {
      RefusedWithoutMaster(s.plant.store, task.id, choice.now, task.effective);
    }
  }

  lemma OpenFaultKept(s: Shared, task: Task, choice: Choice)
    requires StoreSafe(s.plant.store) && ZoneFacts(s, task) && RelaysWithin(s, Window(task)) && task.OpenFault?
    ensures var (q, next) := ActOpen(s, task, choice); ZoneStepKept(s, task, q, next)
  {
    hide StoreSafe, FindZone, RecordZoneFault, AllOff, FaultRecorded;
    var i := DecidedMeans(s, task.id, task.output);
    FaultIsSafe(s.plant.store, i, task.level);
    FaultKeepsMaster(s.plant.store, task.id, task.level);
  }

  /** A publication changes nothing but the events and the clock. */
  lemma PublishedKept(s: Shared, task: Task, now: u64, kind: ZoneEventKind, zone: Text, next: Task)
    requires StoreSafe(s.plant.store) && RelaysWithin(s, None) && (kind == Faulted ==> s.plant.store.system == Error)
    requires ZoneTask(next) && Idling(next)
    ensures ZoneStepKept(s, task, Published(s, now, kind, zone), next)
  {
    hide StoreSafe, FaultRecorded, StepLockout, AllOff, FindZone;
    PublishStops(s, now, kind, zone);
  }

  /** A task that has no zone of its own in hand: there is nothing it would have to know. */
  predicate Idling(task: Task) {
    task.ZoneUnlock? || task.SafeNext? || task.TimeoutNext? || task.TimeoutPublish?
  }

  lemma ContinueIdles(after: After, result: IrrigationResult)
    ensures Idling(Continue(after, result)) && ZoneTask(Continue(after, result))
  {
  }

  lemma OpenPublishKept(s: Shared, task: Task, choice: Choice)
    requires StoreSafe(s.plant.store) && ZoneFacts(s, task) && RelaysWithin(s, None) && (task.OpenPublish? || task.OpenFaulted?)
    ensures var (q, next) := ActOpen(s, task, choice); ZoneStepKept(s, task, q, next)
  {
    hide StoreSafe, ZoneStepKept, RelaysWithin, AllOff, FindZone;
    if task.OpenPublish? {
      PublishedKept(s, task, choice.now, Opened, task.id, ZoneUnlock(Ok));
    } else {
      PublishedKept(s, task, choice.now, Faulted, task.id, ZoneUnlock(task.error));
    }
  }

  lemma ClosePublishKept(s: Shared, task: Task, choice: Choice)
    requires StoreSafe(s.plant.store) && ZoneFacts(s, task) && RelaysWithin(s, None)
    requires task.CloseFaulted? || task.ClosePublish? || task.TimeoutPublish?
    ensures var (q, next) := ActClose(s, task, choice); ZoneStepKept(s, task, q, next)
  {
    hide StoreSafe, ZoneStepKept, RelaysWithin, AllOff, FindZone, Continue;
    match task {
      case CloseFaulted(id, error, after) =>
        ContinueIdles(after, error);
        PublishedKept(s, task, choice.now, Faulted, id, Continue(after, error));
      case ClosePublish(id, after) =>
        ContinueIdles(after, Ok);
        PublishedKept(s, task, choice.now, Closed, id, Continue(after, Ok));
      case TimeoutPublish(snapshot, now, index, id) =>
        PublishedKept(s, task, choice.now, TimedOut, id, TimeoutNext(snapshot, now, index + 1));
    }
  }

  /** The store checks the master valve again when the open is committed. */
  lemma RefusedWithoutMaster(s: RuntimeState, id: Text, openedAt: u64, duration: u32)
    requires s.master.state != MasterOpen
    ensures OpenZone(s, id, openedAt, duration) == (s, if FindZone(s.zones, id).None? then NotFound else InvalidState)
  {
  }

  lemma OpenKeepsMaster(s: RuntimeState, id: Text, openedAt: u64, duration: u32)
    ensures OpenZone(s, id, openedAt, duration).0.master == s.master
  {
  }

  lemma FaultKeepsMaster(s: RuntimeState, id: Text, level: OutputState)
    ensures RecordZoneFault(s, id, level).0.master == s.master && CloseZone(s, id).0.master == s.master
  {
  }

  /** Steps of a close and of the two scans that only read. */
  lemma CloseReadKept(s: Shared, task: Task, choice: Choice)
    requires StoreSafe(s.plant.store) && RelaysWithin(s, None)
    requires task.CloseRead? || task.SafeSnapshot? || task.SafeNext? || task.TimeoutSnapshot? || task.TimeoutNext?
    ensures var (q, next) := ActClose(s, task, choice); ZoneStepKept(s, task, q, next)
  {
    hide StoreSafe, FindZone, AllOff, FaultRecorded;
  }

  lemma CloseDriveKept(s: Shared, task: Task, choice: Choice)
    requires StoreSafe(s.plant.store) && ZoneFacts(s, task) && RelaysWithin(s, Window(task)) && task.CloseDrive?
    ensures var (q, next) := ActClose(s, task, choice); ZoneStepKept(s, task, q, next)
  {
    hide StoreSafe, FindZone, AllOff, FaultRecorded;
    ClosingOutputKnown(s, task.id, task.output);
  }

  /** While a zone is being closed no other relay is energised. */
  lemma ClosingOutputKnown(s: Shared, id: Text, output: OutputIndex)
    requires StoreSafe(s.plant.store) && Closing(s, id, output) && RelaysWithin(s, None)
    ensures forall o: OutputIndex | s.plant.relays[o] :: o == output
  {
  }

  lemma CloseFaultKept(s: Shared, task: Task, choice: Choice)
    requires StoreSafe(s.plant.store) && ZoneFacts(s, task) && RelaysWithin(s, Window(task)) && task.CloseFault?
    ensures var (q, next) := ActClose(s, task, choice); ZoneStepKept(s, task, q, next)
  {
    hide StoreSafe, FindZone, RecordZoneFault, AllOff, FaultRecorded;
    var i := ClosingMeans(s, task.id, task.output);
    FaultKeepsMaster(s.plant.store, task.id, Unknown);
    FaultIsSafe(s.plant.store, i, Unknown);
  }

  lemma CloseCommitKept(s: Shared, task: Task, choice: Choice)
    requires StoreSafe(s.plant.store) && ZoneFacts(s, task) && RelaysWithin(s, Window(task)) && task.CloseCommit?
    ensures var (q, next) := ActClose(s, task, choice); ZoneStepKept(s, task, q, next)
  {
    hide StoreSafe, FindZone, CloseZone, AllOff, FaultRecorded;
    var i := ClosingMeans(s, task.id, task.output);
    FaultKeepsMaster(s.plant.store, task.id, Unknown);
    CloseIsSafe(s.plant.store, i);
    ClosingOutputKnown(s, task.id, task.output);
  }

  lemma ZoneActKept(s: Shared, task: Task, choice: Choice)
    requires StoreSafe(s.plant.store) && ZoneTask(task) && !task.ZoneUnlock? && ZoneFacts(s, task) && RelaysWithin(s, Window(task))
    ensures var (q, next) := Act(s, task, choice); ZoneStepKept(s, task, q, next)
  {
    hide ZoneStepKept, StoreSafe, ActOpen, ActClose, ZoneFacts;
    match task {
      case OpenPublish(_) => OpenPublishKept(s, task, choice);
      case OpenFaulted(_, _) => OpenPublishKept(s, task, choice);
      case CloseFaulted(_, _, _) => ClosePublishKept(s, task, choice);
      case ClosePublish(_, _) => ClosePublishKept(s, task, choice);
      case TimeoutPublish(_, _, _, _) => ClosePublishKept(s, task, choice);
      case CloseDrive(_, _, _) => CloseDriveKept(s, task, choice);
      case CloseFault(_, _, _, _) => CloseFaultKept(s, task, choice);
      case CloseCommit(_, _, _) => CloseCommitKept(s, task, choice);
      case OpenCommit(_, _, _) => OpenCommitKept(s, task, choice);
      case OpenFault(_, _, _, _) => OpenFaultKept(s, task, choice);
      case OpenDrive(_, _, _) => OpenDriveKept(s, task, choice);
      case OpenSafeOff(_, _, _) => OpenDriveKept(s, task, choice);
      case OpenUndo(_, _, _) => OpenDriveKept(s, task, choice);
      case _ => if ClosingTask(task) { CloseReadKept(s, task, choice); } else { OpenEarlyKept(s, task, choice); }
    }
  }

  // ----- Steps of the holder of the master lock -----

  predicate MasterSideOnly(s: Shared, q: Shared) {
    && q.plant.store == s.plant.store.(master := q.plant.store.master)
    && q.plant.relays == s.plant.relays && q.plant.commands == s.plant.commands && q.plant.events == s.plant.events
    && q.zoneLocked == s.zoneLocked && q.masterLocked == s.masterLocked
  }

  /** What a step of the holder of the master lock keeps; the valve leaves OPEN only while every output is OFF. */
  predicate MasterStepKept(s: Shared, q: Shared, next: Task) {
    && MasterSideOnly(s, q) && MasterTask(next) && MasterFacts(q, next) && OpenValveConfirmed(q)
    && (s.plant.store.master.state == MasterOpen && q.plant.store.master.state != MasterOpen ==> AllOff(s.plant.store.outputs))
  }

  lemma MasterOpenStep(s: Shared, task: Task, choice: Choice)
    requires task.MasterOpenRead? || task.MasterOpenDrive? || task.MasterOpenBegin? || task.MasterOpenFault?
    requires MasterFacts(s, task) && OpenValveConfirmed(s)
    ensures var (q, next) := ActMaster(s, task, choice); MasterStepKept(s, q, next)
  {
    hide AllOff;
  }

  lemma MasterProcessStep(s: Shared, task: Task, choice: Choice)
    requires (task.MasterProcessRead? || task.MasterProcessComplete?) && OpenValveConfirmed(s)
    ensures var (q, next) := ActMaster(s, task, choice); MasterStepKept(s, q, next)
  {
    hide AllOff;
  }

  lemma MasterCloseStep(s: Shared, task: Task, choice: Choice)
    requires task.MasterCloseBegin? || task.MasterCloseDrive? || task.MasterCloseComplete? || task.MasterCloseFault?
    requires MasterFacts(s, task) && OpenValveConfirmed(s)
    ensures var (q, next) := ActMaster(s, task, choice); MasterStepKept(s, q, next)
  {
    hide AllOff;
  }

  /** So an output that is ON keeps it open. */
  lemma MasterActKept(s: Shared, task: Task, choice: Choice)
    requires StoreSafe(s.plant.store) && MasterTask(task) && !task.MasterUnlock? && MasterFacts(s, task) && OpenValveConfirmed(s)
    ensures var (q, next) := Act(s, task, choice);
            && MasterSideOnly(s, q) && MasterTask(next) && StoreSafe(q.plant.store) && MasterFacts(q, next) && OpenValveConfirmed(q)
  {
    hide StoreSafe, Act, ActMaster, AllOff, MasterFacts, OpenValveConfirmed;
    StepOfMaster(s, task, choice);
    if task.MasterProcessRead? || task.MasterProcessComplete? {
      MasterProcessStep(s, task, choice);
    } else if task.MasterOpenRead? || task.MasterOpenDrive? || task.MasterOpenBegin? || task.MasterOpenFault? {
      MasterOpenStep(s, task, choice);
    } else {
      MasterCloseStep(s, task, choice);
    }
    MasterMoveIsSafe(s.plant.store, ActMaster(s, task, choice).0.plant.store.master);
  }

  lemma MasterMoveIsSafe(s: RuntimeState, master: MasterValve)
    requires StoreSafe(s)
    ensures s.master.state != MasterOpen || master.state == MasterOpen || AllOff(s.outputs) ==> StoreSafe(s.(master := master))
  {
  }

  // ----- Every step of every task -----

  lemma ZoneFactsStable(s: Shared, q: Shared, task: Task)
    requires q.plant.store.zones == s.plant.store.zones && q.plant.store.outputs == s.plant.store.outputs && q.plant.store.system == s.plant.store.system
    requires q.plant.relays == s.plant.relays
    ensures ZoneFacts(s, task) ==> ZoneFacts(q, task)
    ensures RelaysWithin(s, Window(task)) ==> RelaysWithin(q, Window(task))
    ensures RelaysWithin(s, None) ==> RelaysWithin(q, None)
  {
  }

  lemma ProgramWriteIsSafe(s: RuntimeState, program: ProgramRuntime)
    requires StoreSafe(s)
    ensures StoreSafe(s.(program := program))
  {
  }

  lemma StepByZoneHolder(m: Machine, t: nat, choice: Choice)
    requires Invariant(m) && t < |m.tasks| && ZoneTask(m.tasks[t])
    ensures Invariant(Step(m, t, choice)) && StepLockout(m.shared, Step(m, t, choice).shared)
  {
    hide StoreSafe, ZoneFacts, RelaysWithin, Act, Window, ZoneTask, MasterTask;
    var n := Step(m, t, choice);
    TaskKinds(m.tasks[t]);
    if m.tasks[t].ZoneUnlock? {
      UnlockZone(m.shared, m.tasks[t].result, choice);
    } else {
      ZoneActKept(m.shared, m.tasks[t], choice);
      TaskKinds(n.tasks[t]);
    }
    assert forall u | 0 <= u < |n.tasks| && u != t :: n.tasks[u] == m.tasks[u] && !ZoneTask(n.tasks[u]);
  }

  lemma TaskKinds(task: Task)
    ensures !(ZoneTask(task) && MasterTask(task)) && (task.Resting? ==> !ZoneTask(task) && !MasterTask(task))
    ensures task.ZoneUnlock? ==> Window(task) == None
    ensures task.ZoneUnlock? ==> ZoneTask(task)
    ensures task.MasterUnlock? ==> MasterTask(task)
  {
  }

  lemma UnlockZone(s: Shared, result: IrrigationResult, choice: Choice)
    ensures Act(s, ZoneUnlock(result), choice) == (s.(zoneLocked := false), Resting)
    ensures RelaysWithin(s, None) ==> RelaysWithin(s.(zoneLocked := false), None)
    ensures !ZoneTask(Resting) && !MasterTask(Resting)
  {
  }

  lemma StepByMasterHolder(m: Machine, t: nat, choice: Choice)
    requires Invariant(m) && t < |m.tasks| && MasterTask(m.tasks[t])
    ensures Invariant(Step(m, t, choice)) && StepLockout(m.shared, Step(m, t, choice).shared)
  {
    hide StoreSafe, ZoneFacts, RelaysWithin, Act, Window, ZoneTask, MasterTask, MasterFacts;
    var n := Step(m, t, choice);
    TaskKinds(m.tasks[t]);
    if m.tasks[t].MasterUnlock? {
      UnlockMaster(m.shared, m.tasks[t].result, choice);
    } else {
      MasterActKept(m.shared, m.tasks[t], choice);
      TaskKinds(n.tasks[t]);
    }
    assert forall u | 0 <= u < |n.tasks| && u != t :: n.tasks[u] == m.tasks[u] && !MasterTask(n.tasks[u]);
    forall u | 0 <= u < |n.tasks| && ZoneTask(n.tasks[u]) ensures ZoneFacts(n.shared, n.tasks[u]) && RelaysWithin(n.shared, Window(n.tasks[u])) {
      ZoneFactsStable(m.shared, n.shared, n.tasks[u]);
    }
    ZoneFactsStable(m.shared, n.shared, Resting);
  }

  lemma UnlockMaster(s: Shared, result: IrrigationResult, choice: Choice)
    ensures Act(s, MasterUnlock(result), choice) == (s.(masterLocked := false), Resting)
    ensures !ZoneTask(Resting) && !MasterTask(Resting)
  {
  }

  lemma StepFromRest(m: Machine, t: nat, choice: Choice)
    requires Invariant(m) && t < |m.tasks| && m.tasks[t].Resting?
    ensures Invariant(Step(m, t, choice)) && StepLockout(m.shared, Step(m, t, choice).shared)
  {
    hide StoreSafe, ZoneFacts, RelaysWithin, Window, MasterFacts, Begin, ZoneTask, MasterTask, FaultRecorded;
    var n := Step(m, t, choice);
    Entry(m.shared, choice.request);
    TaskKinds(m.tasks[t]);
    forall u | 0 <= u < |n.tasks| && u != t
      ensures ZoneTask(n.tasks[u]) ==> ZoneFacts(n.shared, n.tasks[u]) && RelaysWithin(n.shared, Window(n.tasks[u]))
      ensures MasterTask(n.tasks[u]) ==> MasterFacts(n.shared, n.tasks[u])
    {
      ZoneFactsStable(m.shared, n.shared, n.tasks[u]);
      MasterFactsStable(m.shared, n.shared, n.tasks[u]);
    }
    ZoneFactsStable(m.shared, n.shared, Resting);
  }

  /** On entry nothing is known yet, nothing but the program is written, and a lock is taken only where it was free. */
  lemma Entry(s: Shared, request: Request)
    requires StoreSafe(s.plant.store)
    ensures var (q, task) := Begin(s, request);
            && ZoneFacts(q, task) && MasterFacts(q, task) && Window(task) == None
            && StoreSafe(q.plant.store) && q.plant == s.plant.(store := s.plant.store.(program := q.plant.store.program))
            && (if ZoneTask(task) then !s.zoneLocked && q.zoneLocked else q.zoneLocked == s.zoneLocked)
            && (if MasterTask(task) then !s.masterLocked && q.masterLocked else q.masterLocked == s.masterLocked)
  {
    hide StoreSafe;
    if request.RequestProgramWrite? { ProgramWriteIsSafe(s.plant.store, request.program); }
  }

  lemma MasterFactsStable(s: Shared, q: Shared, task: Task)
    requires q.plant.store.master == s.plant.store.master && q.plant.valve == s.plant.valve
    ensures MasterFacts(s, task) ==> MasterFacts(q, task)
  {
  }

  lemma StepKept(m: Machine, t: nat, choice: Choice)
    requires Invariant(m) && t < |m.tasks|
    ensures Invariant(Step(m, t, choice)) && StepLockout(m.shared, Step(m, t, choice).shared)
  {
    hide Invariant, StepLockout, Step, MasterTask;
    if m.tasks[t].Resting? {
      StepFromRest(m, t, choice);
    } else if MasterTask(m.tasks[t]) {
      StepByMasterHolder(m, t, choice);
    } else {
      StepByZoneHolder(m, t, choice);
    }
  }

  lemma {:induction false} InterleaveKept(m: Machine, schedule: seq<(nat, Choice)>)
    requires Invariant(m)
    ensures Invariant(Interleave(m, schedule)) && StepLockout(m.shared, Interleave(m, schedule).shared)
    decreases |schedule|
  {
    hide Invariant, Step;
    if schedule != [] {
      InterleaveKept(m, schedule[..|schedule| - 1]);
      var before, last := Interleave(m, schedule[..|schedule| - 1]), schedule[|schedule| - 1];
      if last.0 < |before.tasks| { StepKept(before, last.0, last.1); }
    }
  }

  /** Before any task enters a service. */
  ghost predicate AtRest(m: Machine) {
    && (forall t | 0 <= t < |m.tasks| :: m.tasks[t] == Resting)
    && !m.shared.zoneLocked && !m.shared.masterLocked
    && m.shared.plant.store.system == Ready && m.shared.plant.store.outputs == ALL_OFF
    && m.shared.plant.store.master.state == MasterClosed
    && (forall o: OutputIndex :: !m.shared.plant.relays[o]) && m.shared.plant.events == []
    && exists zones :: ZonesAcceptable(zones) && m.shared.plant.store.zones == InitialZones(zones)
  }

  lemma RestIsInvariant(m: Machine)
    requires AtRest(m)
    ensures Invariant(m)
  {
    hide InitialZones, ZonesDistinct;
    var zones :| ZonesAcceptable(zones) && m.shared.plant.store.zones == InitialZones(zones);
    AcceptableAreDistinct(zones);
  }

  /**
   Whatever the number of tasks, the schedule and the drivers: an output recorded ON means the master valve is OPEN and was
   confirmed open, a zone is OPEN exactly when its output is ON, at most one zone is OPEN or FAULT, and a relay is energised
   only if its output is recorded ON or UNKNOWN or a task that holds the zone lock is just about to record it.
   */
  lemma InterleavingIsInterlocked(m: Machine, schedule: seq<(nat, Choice)>)
    requires AtRest(m)
    ensures var n := Interleave(m, schedule); var s := n.shared.plant.store;
            && (forall o: OutputIndex | s.outputs[o] == On :: s.master.state == MasterOpen && n.shared.plant.valve == ValveOpened)
            && (forall i | 0 <= i < |s.zones| :: s.zones[i].state == ZoneOpen <==> s.outputs[s.zones[i].output] == On)
            && (forall i, j | 0 <= i < j < |s.zones| :: !(Busy(s.zones[i]) && Busy(s.zones[j])))
            && (forall o: OutputIndex | n.shared.plant.relays[o] ::
                  s.outputs[o] == On || s.outputs[o] == Unknown
                  || exists t :: 0 <= t < |n.tasks| && ZoneTask(n.tasks[t]) && Window(n.tasks[t]) == Some(o))
            && Exclusive(n)
  {
    hide Interleave, ZoneFacts, MasterFacts, ZonesDistinct;
    RestIsInvariant(m);
    InterleaveKept(m, schedule);
    HolderExists(m, schedule);
  }

  /** Once a fault is published or ERROR is recorded no task ever asks the driver to switch an output on, not even one already inside. */
  lemma InterleavingLocksOut(m: Machine, schedule: seq<(nat, Choice)>, more: seq<(nat, Choice)>)
    requires AtRest(m)
    ensures var n := Interleave(m, schedule); var q := Interleave(n, more);
            FaultRecorded(n.shared.plant.events) || n.shared.plant.store.system == Error ==>
              q.shared.plant.store.system == Error && OnlyOffAfter(n.shared.plant.commands, q.shared.plant.commands)
  {
    hide Interleave, AtRest, StoreSafe, ZoneFacts, MasterFacts, Exclusive, FaultRecorded;
    RestIsInvariant(m);
    InterleaveKept(m, schedule);
    InterleaveKept(Interleave(m, schedule), more);
  }

  /** A lock that is taken is held by a task. */
  lemma {:induction false} HolderExists(m: Machine, schedule: seq<(nat, Choice)>)
    requires AtRest(m)
    ensures var n := Interleave(m, schedule);
            n.shared.zoneLocked ==> exists t :: 0 <= t < |n.tasks| && ZoneTask(n.tasks[t])
    decreases |schedule|
  {
    hide Invariant, ZoneTask, MasterTask, Act, AtRest, Step, Interleave;
    RestIsInvariant(m);
    if schedule == [] {
      RestInterleaves(m);
    } else {
      var earlier, last := schedule[..|schedule| - 1], schedule[|schedule| - 1];
      var before := Interleave(m, earlier);
      HolderExists(m, earlier);
      InterleaveKept(m, earlier);
      LastStep(m, schedule);
      if last.0 < |before.tasks| { HolderAfterStep(before, last.0, last.1); }
    }
  }

  lemma RestInterleaves(m: Machine)
    requires AtRest(m)
    ensures Interleave(m, []) == m && !m.shared.zoneLocked
  {
  }

  lemma LastStep(m: Machine, schedule: seq<(nat, Choice)>)
    requires schedule != []
    ensures var before, last := Interleave(m, schedule[..|schedule| - 1]), schedule[|schedule| - 1];
            Interleave(m, schedule) == if last.0 < |before.tasks| then Step(before, last.0, last.1) else before
  {
  }

  predicate HasHolder(m: Machine) {
    m.shared.zoneLocked ==> exists t :: 0 <= t < |m.tasks| && ZoneTask(m.tasks[t])
  }

  lemma HolderAfterStep(m: Machine, t: nat, choice: Choice)
    requires Invariant(m) && HasHolder(m) && t < |m.tasks|
    ensures HasHolder(Step(m, t, choice))
  {
    hide StoreSafe, ZoneFacts, MasterFacts, RelaysWithin, ActOpen, ActClose, ActMaster;
    var n := Step(m, t, choice);
    LockFlow(m.shared, m.tasks[t], choice);
    if n.shared.zoneLocked && !ZoneTask(n.tasks[t]) {
      var u :| 0 <= u < |m.tasks| && ZoneTask(m.tasks[u]);
      assert n.tasks[u] == m.tasks[u];
    }
  }

  lemma OpenFlow(s: Shared, task: Task, choice: Choice)
    requires ZoneTask(task) && !task.ZoneUnlock? && !ClosingTask(task)
    ensures var (q, next) := ActOpen(s, task, choice); ZoneTask(next) && q.zoneLocked == s.zoneLocked
  {
    hide FindZone, AllOff, RecordZoneFault, OpenZone, PrepareZoneOpen, TransitionSystem;
  }

  lemma CloseFlow(s: Shared, task: Task, choice: Choice)
    requires ClosingTask(task)
    ensures var (q, next) := ActClose(s, task, choice); ZoneTask(next) && q.zoneLocked == s.zoneLocked
  {
    hide FindZone, RecordZoneFault, CloseZone;
  }

  lemma MasterFlow(s: Shared, task: Task, choice: Choice)
    requires MasterTask(task) && !task.MasterUnlock?
    ensures ActMaster(s, task, choice).0.zoneLocked == s.zoneLocked
  {
  }

  /** How one step moves the zone lock and its holder. */
  lemma LockFlow(s: Shared, task: Task, choice: Choice)
    ensures var (q, next) := Act(s, task, choice);
            && (ZoneTask(task) && !task.ZoneUnlock? ==> ZoneTask(next) && q.zoneLocked == s.zoneLocked)
            && (task.ZoneUnlock? ==> !q.zoneLocked)
            && (!ZoneTask(task) ==> ZoneTask(next) || q.zoneLocked == s.zoneLocked)
  {
    hide ActOpen, ActClose, ActMaster;
    if ClosingTask(task) {
      CloseFlow(s, task, choice);
    } else if ZoneTask(task) && !task.ZoneUnlock? {
      OpenFlow(s, task, choice);
    } else if MasterTask(task) && !task.MasterUnlock? {
      MasterFlow(s, task, choice);
    }
  }

  /**
   Why the store checks the master valve again: a close may begin between the driver call and the commit. The relay is then
   energised under a closing valve, but the open is never recorded; that opener switches the output off again.
   */
  lemma CommitIsRefusedAfterClose(m: Machine, t: nat, u: nat, drive: Choice, close: Choice, commit: Choice)
    requires Invariant(m) && t < |m.tasks| && u < |m.tasks| && t != u
    requires m.tasks[t].OpenDrive? && m.tasks[u].MasterCloseBegin? && m.shared.plant.store.master.state == MasterOpen
    requires drive.outcome == Done
    ensures var output := m.tasks[t].output; var driven := Step(m, t, drive);
            var closing := Step(driven, u, close); var refused := Step(closing, t, commit);
            && closing.shared.plant.relays[output] && closing.shared.plant.store.outputs[output] == Off
            && closing.shared.plant.store.master.state == MasterClosing
            && refused.shared.plant.store == closing.shared.plant.store && refused.tasks[t] == OpenUndo(m.tasks[t].id, output, InvalidState)
  {
    hide StoreSafe, MasterFacts, FindZone, Act, AllOff, OpenZone, FaultRecorded, ZoneTask, MasterTask;
    var task := m.tasks[t];
    var driven := Step(m, t, drive);
    DriveStep(m.shared, task, drive);
    assert Decided(m.shared, task.id, task.output) by { HolderKnows(m, t); }
    var closing := Step(driven, u, close);
    CloseStep(driven.shared, close);
    StepOfOpen(closing.shared, closing.tasks[t], commit);
    RefusedWithoutMaster(closing.shared.plant.store, task.id, commit.now, task.effective);
    OffIsOff(m.shared.plant.store.outputs, task.output);
  }

  lemma HolderKnows(m: Machine, t: nat)
    requires Invariant(m) && t < |m.tasks| && m.tasks[t].OpenDrive?
    ensures Decided(m.shared, m.tasks[t].id, m.tasks[t].output)
  {
    hide StoreSafe, MasterFacts, FindZone;
    TaskKinds(m.tasks[t]);
  }

  lemma OffIsOff(outputs: OutputStates, output: OutputIndex)
    requires AllOff(outputs)
    ensures outputs[output] == Off
  {
  }

  lemma DriveStep(s: Shared, task: Task, choice: Choice)
    requires task.OpenDrive? && choice.outcome == Done
    ensures var (q, next) := Act(s, task, choice);
            && q == Drive(s, task.output, true, Done) && q.plant.relays[task.output] && next == OpenCommit(task.id, task.output, task.effective)
  {
    hide FindZone, AllOff, OpenZone;
    StepOfOpen(s, task, choice);
  }

  lemma CloseStep(s: Shared, choice: Choice)
    requires s.plant.store.master.state == MasterOpen && AllOff(s.plant.store.outputs)
    ensures Act(s, MasterCloseBegin, choice) ==
      (WithStore(s, s.plant.store.(master := s.plant.store.master.(state := MasterClosing))), MasterCloseDrive)
  {
    hide AllOff;
    StepOfMaster(s, MasterCloseBegin, choice);
  }
}
