/** The runtime state that every service shares, and its guarded transitions. */
module RuntimeStates {
  import opened Bytes
  import opened Common

  datatype SystemState = Boot | Ready | Running | Manual | Ota | Maintenance | Error

  datatype ZoneState = ZoneDisabled | ZoneIdle | ZoneOpening | ZoneOpen | ZoneClosing | ZoneFault

  datatype OutputState = Off | On | Unknown

  datatype MasterState = MasterClosed | MasterOpening | MasterOpen | MasterClosing | MasterFault

  datatype ProgramState = ProgramIdle | WaitingMaster | RunningZone | WaitingPostDelay | Completed | Aborted | ProgramFault

  type OutputIndex = i: nat | i < MAX_OUTPUTS

  type OutputStates = s: seq<OutputState> | |s| == MAX_OUTPUTS witness [Off, Off, Off, Off, Off, Off, Off, Off]

  datatype ZoneRuntime = ZoneRuntime(id: Text, output: OutputIndex, state: ZoneState, openedAt: u64, duration: u32)

  datatype MasterValve = MasterValve(state: MasterState, confirmedAt: u64, preOpenDelay: u32)

  datatype ProgramRuntime = ProgramRuntime(state: ProgramState, step: nat, startedAt: u64)

  datatype OccurrenceStatus = NoOccurrence | OccurrenceStarted | SkippedBusy | OccurrenceRejected

  datatype Occurrence = Occurrence(last: u64, status: OccurrenceStatus)

  /** The last occurrence of an entry that has not been handled yet. */
  const UNHANDLED: u64 := 0xffff_ffff_ffff_ffff

  const NEVER: Occurrence := Occurrence(UNHANDLED, NoOccurrence)

  type OccurrenceTable = t: seq<Occurrence> | |t| == MAX_SCHEDULES
    witness [NEVER, NEVER, NEVER, NEVER, NEVER, NEVER, NEVER, NEVER, NEVER, NEVER, NEVER, NEVER, NEVER, NEVER, NEVER, NEVER]

  datatype SchedulerRuntime = SchedulerRuntime(occurrences: OccurrenceTable, count: nat)

  datatype RuntimeState = RuntimeState(
    system: SystemState,
    outputs: OutputStates,
    master: MasterValve,
    program: ProgramRuntime,
    scheduler: SchedulerRuntime,
    zones: seq<ZoneRuntime>)

  const ALL_OFF: OutputStates := [Off, Off, Off, Off, Off, Off, Off, Off]

  function Initial(): RuntimeState {
    RuntimeState(Boot, ALL_OFF, MasterValve(MasterClosed, 0, 0), ProgramRuntime(ProgramIdle, 0, 0),
                 SchedulerRuntime(seq(MAX_SCHEDULES, _ => NEVER), 0), [])
  }

  /** The subtraction of two clock values in 64 unsigned bits. */
  function Elapsed(now: u64, since: u64): u64 {
    if now >= since then now - since else now - since + 0x1_0000_0000_0000_0000
  }

  // ----- Lookups -----

  function FindFrom(zones: seq<ZoneRuntime>, id: Text, from: nat): (found: Option<nat>)
    requires from <= |zones|
    ensures found.Some? ==> from <= found.value < |zones| && zones[found.value].id == id
    ensures found.Some? ==> forall i | from <= i < found.value :: zones[i].id != id
    ensures found.None? ==> forall i | from <= i < |zones| :: zones[i].id != id
    decreases |zones| - from
  {
    if from == |zones| then None
    else if zones[from].id == id then Some(from)
    else FindFrom(zones, id, from + 1)
  }

  function FindZone(zones: seq<ZoneRuntime>, id: Text): (found: Option<nat>)
    ensures found.Some? ==> found.value < |zones| && zones[found.value].id == id
    ensures found.Some? ==> forall i | 0 <= i < found.value :: zones[i].id != id
    ensures found.None? ==> forall i | 0 <= i < |zones| :: zones[i].id != id
  {
    FindFrom(zones, id, 0)
  }

  predicate AllOff(outputs: OutputStates) {
    forall i | 0 <= i < MAX_OUTPUTS :: outputs[i] == Off
  }

  predicate CloseEligible(s: RuntimeState) {
    (s.master.state == MasterOpen || s.master.state == MasterOpening) && AllOff(s.outputs)
  }

  // ----- Transitions: the new state and the result -----

  predicate SystemTransitionAllowed(from: SystemState, to: SystemState) {
    || from == to
    || (from == Boot && to == Ready)
    || (from == Ready && to == Manual)
    || (from == Manual && to == Ready)
    || (from == Ready && to == Error)
    || (from == Error && to == Boot)
  }

  function TransitionSystem(s: RuntimeState, next: SystemState): (RuntimeState, IrrigationResult) {
    if SystemTransitionAllowed(s.system, next) then (s.(system := next), Ok) else (s, InvalidState)
  }

  /** Whether a zone could be opened now. */
  function PrepareZoneOpen(s: RuntimeState, id: Text): IrrigationResult {
    match FindZone(s.zones, id)
    case None => NotFound
    case Some(i) =>
      if s.system == Manual && s.zones[i].state == ZoneIdle && s.master.state == MasterOpen && AllOff(s.outputs)
      then Ok else InvalidState
  }

  function OpenZone(s: RuntimeState, id: Text, openedAt: u64, duration: u32): (RuntimeState, IrrigationResult) {
    var result := PrepareZoneOpen(s, id);
    if result != Ok then (s, result)
    else
      var i := FindZone(s.zones, id).value;
      var zone := s.zones[i].(state := ZoneOpen, openedAt := openedAt, duration := duration);
      (s.(zones := s.zones[i := zone], outputs := s.outputs[zone.output := On]), Ok)
  }

  function CloseZone(s: RuntimeState, id: Text): (RuntimeState, IrrigationResult) {
    match FindZone(s.zones, id)
    case None => (s, NotFound)
    case Some(i) =>
      if s.zones[i].state != ZoneOpen && s.zones[i].state != ZoneFault then (s, InvalidState)
      else
        var zone := s.zones[i].(state := ZoneIdle, openedAt := 0);
        var outputs := s.outputs[zone.output := Off];
        (s.(zones := s.zones[i := zone], outputs := outputs,
            system := if AllOff(outputs) && s.system == Manual then Ready else s.system), Ok)
  }

  function RecordZoneFault(s: RuntimeState, id: Text, output: OutputState): (RuntimeState, IrrigationResult) {
    match FindZone(s.zones, id)
    case None => (s, NotFound)
    case Some(i) =>
      if s.zones[i].state == ZoneDisabled then (s, InvalidState)
      else
        var zone := s.zones[i].(state := ZoneFault);
        (s.(zones := s.zones[i := zone], outputs := s.outputs[zone.output := output], system := Error), Ok)
  }

  function ConfigureMaster(s: RuntimeState, preOpenDelay: u32): (RuntimeState, IrrigationResult) {
    if s.master.state != MasterClosed then (s, InvalidState)
    else (s.(master := s.master.(preOpenDelay := preOpenDelay)), Ok)
  }

  function BeginMasterOpen(s: RuntimeState, confirmedAt: u64): (RuntimeState, IrrigationResult) {
    if s.master.state != MasterClosed && s.master.state != MasterFault then (s, InvalidState)
    else (s.(master := s.master.(state := MasterOpening, confirmedAt := confirmedAt)), Ok)
  }

  function CompletePreOpenDelay(s: RuntimeState, now: u64): (RuntimeState, IrrigationResult) {
    if s.master.state != MasterOpening then (s, InvalidState)
    else if Elapsed(now, s.master.confirmedAt) < s.master.preOpenDelay then (s, Timeout)
    else (s.(master := s.master.(state := MasterOpen)), Ok)
  }

  function BeginMasterClose(s: RuntimeState): (RuntimeState, IrrigationResult) {
    if !CloseEligible(s) then (s, InvalidState) else (s.(master := s.master.(state := MasterClosing)), Ok)
  }

  function CompleteMasterClose(s: RuntimeState): (RuntimeState, IrrigationResult) {
    if s.master.state != MasterClosing then (s, InvalidState)
    else (s.(master := s.master.(state := MasterClosed, confirmedAt := 0)), Ok)
  }

  function RecordMasterFault(s: RuntimeState): RuntimeState {
    s.(master := s.master.(state := MasterFault))
  }

  function BeginProgram(s: RuntimeState): (RuntimeState, IrrigationResult) {
    if s.program.state != ProgramIdle && s.program.state != Completed && s.program.state != Aborted then (s, InvalidState)
    else (s.(program := ProgramRuntime(WaitingMaster, 0, 0)), Ok)
  }

  function SetRunningZone(s: RuntimeState, step: nat, startedAt: u64): (RuntimeState, IrrigationResult) {
    if s.program.state != WaitingMaster && s.program.state != RunningZone then (s, InvalidState)
    else (s.(program := ProgramRuntime(RunningZone, step, startedAt)), Ok)
  }

  function SetWaitingPostDelay(s: RuntimeState, startedAt: u64): (RuntimeState, IrrigationResult) {
    if s.program.state != RunningZone then (s, InvalidState)
    else (s.(program := s.program.(state := WaitingPostDelay, startedAt := startedAt)), Ok)
  }

  function SetTerminal(s: RuntimeState, state: ProgramState): (RuntimeState, IrrigationResult) {
    if state != Completed && state != Aborted && state != ProgramFault then (s, InvalidState)
    else (s.(program := s.program.(state := state)), Ok)
  }

  function ConfigureScheduler(s: RuntimeState, count: nat): (RuntimeState, IrrigationResult) {
    if count > MAX_SCHEDULES then (s, Rejected) else (s.(scheduler := s.scheduler.(count := count)), Ok)
  }

  function WithOccurrence(s: RuntimeState, index: nat, occurrence: Occurrence): RuntimeState
    requires index < MAX_SCHEDULES
  {
    s.(scheduler := s.scheduler.(occurrences := s.scheduler.occurrences[index := occurrence]))
  }

  function ResetOccurrence(s: RuntimeState, index: nat): (RuntimeState, IrrigationResult)
    requires s.scheduler.count <= MAX_SCHEDULES
  {
    if index >= s.scheduler.count then (s, InvalidState) else (WithOccurrence(s, index, NEVER), Ok)
  }

  function RecordOccurrence(s: RuntimeState, index: nat, last: u64, status: OccurrenceStatus): (RuntimeState, IrrigationResult)
    requires s.scheduler.count <= MAX_SCHEDULES
  {
    if index >= s.scheduler.count || status == NoOccurrence then (s, InvalidState)
    else (WithOccurrence(s, index, Occurrence(last, status)), Ok)
  }

  // ----- Zone configuration -----

  predicate Conflict(a: Zone, b: Zone) {
    a.id == b.id || a.outputIndex == b.outputIndex
  }

  /** At most eight zones, each on an output of the board, no two sharing an id or an output. */
  predicate ZonesAcceptable(zones: seq<Zone>) {
    && |zones| <= MAX_ZONES
    && (forall i | 0 <= i < |zones| :: zones[i].outputIndex < MAX_OUTPUTS)
    && (forall i, j | 0 <= i < j < |zones| :: !Conflict(zones[i], zones[j]))
  }

  function InitialZone(zone: Zone): ZoneRuntime
    requires zone.outputIndex < MAX_OUTPUTS
  {
    ZoneRuntime(zone.id, zone.outputIndex, if zone.enabled then ZoneIdle else ZoneDisabled, 0, zone.defaultDurationMs)
  }

  function InitialZones(zones: seq<Zone>): (configured: seq<ZoneRuntime>)
    requires forall i | 0 <= i < |zones| :: zones[i].outputIndex < MAX_OUTPUTS
    ensures |configured| == |zones|
    ensures forall i | 0 <= i < |zones| :: configured[i] == InitialZone(zones[i])
  {
    if zones == [] then [] else InitialZones(zones[..|zones| - 1]) + [InitialZone(zones[|zones| - 1])]
  }
}
