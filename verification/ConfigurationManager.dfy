/**
 The configuration manager: slot arrays that the scheduler's entries point into, rewritten in place, and the repository that
 a mutation is saved to.
 */
module ConfigurationManagers {
  import opened Bytes
  import opened Common
  import opened Configuration
  import opened RuntimeStates
  import opened Plants
  import opened SchedulerServices
  import opened ConfigurationRepository
  import opened SlotTables
  import opened RuntimeViews
  import opened ManagerRuns
  import opened Decimals
  import Codec
  import SlotStore
  import ManagerOperations
  import Schedules

  /** No slot in use. */
  class ConfigurationManager {
    const boardZones: seq<Zone>
    const programUsed: array<bool>
    const programIds: array<Text>
    const programs: array<Program>
    const scheduleUsed: array<bool>
    const scheduleIds: array<Text>
    const schedules: array<EntryRef>
    var configuration: IrrigationConfiguration
    var persistenceRequired: bool
    var repository: Repository?
    var scheduler: SchedulerService?

    /** The views, with the arrays they are kept in apart from each other. */
    ghost predicate ViewsValid()
      reads schedules
    {
      && programUsed.Length == programIds.Length == programs.Length == MAX_PROGRAMS
      && scheduleUsed.Length == scheduleIds.Length == schedules.Length == MAX_SCHEDULES
      && programUsed != scheduleUsed && programIds != scheduleIds
      && RefsInRange(schedules[..])
    }

    ghost function GetViews(): Views
      requires ViewsValid()
      reads programUsed, programIds, programs, scheduleUsed, scheduleIds, schedules
      ensures Shape(GetViews())
    {
      Views(programUsed[..], programIds[..], programs[..], scheduleUsed[..], scheduleIds[..], schedules[..])
    }

    ghost predicate Valid()
      reads this, schedules
      reads if scheduler == null then {} else {scheduler, scheduler.store, scheduler.entries}
      reads if repository == null then {} else {repository, repository.storage}
    {
      && ViewsValid() && |configuration.schedules| <= MAX_SCHEDULES
      && (scheduler != null ==>
          && scheduler.Valid() && scheduler.ids == scheduleIds && scheduler.programs == programs && scheduler.entries != schedules)
      && (repository != null ==> repository.Valid())
    }

    /** What the manager and the scheduler bound to it hold. */
    ghost function State(): ManagerOperations.Manager
      requires Valid()
      reads this, programUsed, programIds, programs, scheduleUsed, scheduleIds, schedules
      reads if scheduler == null then {} else {scheduler, scheduler.store, scheduler.entries}
      reads if repository == null then {} else {repository, repository.storage}
      ensures ManagerOperations.Usable(State())
    {
      ManagerOperations.Manager(configuration, GetViews(), if scheduler == null then None else Some(GetLive(scheduler)))
    }

    /** Where the next mutation is saved. */
    ghost function GetBacking(): ManagerOperations.Backing
      requires Valid()
      reads this, schedules
      reads if scheduler == null then {} else {scheduler, scheduler.store, scheduler.entries}
      reads if repository == null then {} else {repository, repository.storage}
    {
      ManagerOperations.Backing(persistenceRequired, if repository == null then None else Some(repository.storage.Both()))
    }

    /** How storage will behave during the next save. */
    ghost function NextSave(): SlotStore.SaveOutcome
      reads this
      reads if repository == null then {} else {repository, repository.storage}
    {
      if repository == null then SlotStore.SaveOutcome(true, true, false, false, SlotStore.Unchanged, true)
      else repository.storage.SaveAt(repository.storage.readCount)
    }

    static ghost function GetLive(scheduler: SchedulerService): ManagerOperations.Live
      requires scheduler.Valid()
      reads scheduler, scheduler.store, scheduler.entries
    {
      ManagerOperations.Live(scheduler.entries[..scheduler.entryCount], scheduler.store.current.scheduler)
    }

    /** The arrays that the views are kept in. */
    ghost function Slots(): set<object>
      reads this
    {
      {programUsed, programIds, programs, scheduleUsed, scheduleIds, schedules}
    }

    /** What the scheduler bound to the manager lets it change. */
    ghost function SchedulerParts(): set<object>
      reads this
    {
      if scheduler == null then {} else {scheduler, scheduler.entries, scheduler.store}
    }

    ghost function RepositoryParts(): set<object>
      reads this, if repository == null then {} else {repository}
    {
      if repository == null || |repository.slotBuffers| != 2 then {}
      else {repository.storage, repository.slotBuffers[0], repository.slotBuffers[1]}
    }

    constructor (boardZones: seq<Zone>, defaults: IrrigationConfiguration)
      requires |defaults.schedules| <= MAX_SCHEDULES
      ensures Valid() && this.boardZones == boardZones && configuration == defaults && scheduler == null && repository == null
      ensures !persistenceRequired && fresh(Slots())
      ensures State() == ManagerOperations.Manager(defaults, Rebuild(NoViews(), defaults, true), None)
    {
      hide Rebuild, RefsInRange, NoViews;
      this.boardZones, configuration, persistenceRequired := boardZones, defaults, false;
      repository, scheduler := null, null;
      programUsed, programIds := new bool[MAX_PROGRAMS](_ => false), new Text[MAX_PROGRAMS](_ => []);
      programs := new Program[MAX_PROGRAMS](_ => Program([], [], 0));
      scheduleUsed, scheduleIds := new bool[MAX_SCHEDULES](_ => false), new Text[MAX_SCHEDULES](_ => []);
      schedules := new EntryRef[MAX_SCHEDULES](_ => EntryRef(0, false, 0, 0, 0, 0));
      new;
      BlankViews(Views(programUsed[..], programIds[..], programs[..], scheduleUsed[..], scheduleIds[..], schedules[..]));
      RebuildRuntimeViews(configuration, true);
    }

    // ----- Slots -----

    method ProgramSlotForId(id: Text) returns (slot: Option<nat>)
      requires ViewsValid()
      ensures slot == SlotOf(programUsed[..], programIds[..], id)
    {
      for index := 0 to MAX_PROGRAMS
        invariant SlotFrom(programUsed[..], programIds[..], id, index) == SlotOf(programUsed[..], programIds[..], id)
      {
        if programUsed[index] && programIds[index] == id { return Some(index); }
      }
      return None;
    }

    method ScheduleSlotForId(id: Text) returns (slot: Option<nat>)
      requires ViewsValid()
      ensures slot == SlotOf(scheduleUsed[..], scheduleIds[..], id)
    {
      for index := 0 to MAX_SCHEDULES
        invariant SlotFrom(scheduleUsed[..], scheduleIds[..], id, index) == SlotOf(scheduleUsed[..], scheduleIds[..], id)
      {
        if scheduleUsed[index] && scheduleIds[index] == id { return Some(index); }
      }
      return None;
    }

    method FirstUnused(used: array<bool>) returns (slot: Option<nat>)
      ensures slot == UnusedSlot(used[..])
    {
      for index := 0 to used.Length
        invariant UnusedFrom(used[..], index) == UnusedSlot(used[..])
      {
        if !used[index] { return Some(index); }
      }
      return None;
    }

    /** The steps of a program, copied one by one. */
    method CopySteps(steps: seq<StepConfiguration>) returns (copied: seq<Step>)
      ensures copied == StepsOf(steps)
    {
      copied := [];
      for index := 0 to |steps|
        invariant copied == StepsOf(steps[..index])
      {
        copied := copied + [Step(CopyText(steps[index].zoneId), steps[index].durationMs)];
        assert steps[..index + 1][..index] == steps[..index];
      }
      assert steps[..|steps|] == steps;
    }

    // ----- Rebuilding the views -----

    /** Stores a configured program in a slot. */
    method WriteProgram(slot: nat, configured: ProgramConfiguration)
      requires ViewsValid() && slot < MAX_PROGRAMS
      modifies programUsed, programIds, programs
      ensures programUsed[..] == old(programUsed[..])[slot := true]
      ensures programIds[..] == old(programIds[..])[slot := CopyText(configured.programId)]
      ensures programs[..] == old(programs[..])[slot := ProgramOf(configured)]
    {
      var steps := CopySteps(configured.steps);
      programUsed[slot] := true;
      programIds[slot] := CopyText(configured.programId);
      programs[slot] := Program(CopyText(configured.displayName), steps, 0);
    }

    method SetFlags(used: array<bool>, flags: seq<bool>)
      requires used.Length == |flags|
      modifies used
      ensures used[..] == flags
    {
      for index := 0 to used.Length
        invariant used[..index] == flags[..index]
      {
        used[index] := flags[index];
        assert used[..index + 1] == used[..index] + [flags[index]];
        assert flags[..index + 1] == flags[..index] + [flags[index]];
      }
      assert used[..used.Length] == used[..] && flags[..used.Length] == flags;
    }

    method RebuildProgramSlots(configured: seq<ProgramConfiguration>) returns (complete: bool)
      requires ViewsValid()
      modifies programUsed, programIds, programs
      ensures ViewsValid() && (GetViews(), complete) == RebuildPrograms(old(GetViews()), configured)
    {
      hide Claim, ProgramOf, PlacePrograms;
      var inUse := NO_PROGRAM_IN_USE;
      ghost var start := PlacePrograms(Table(programUsed[..], programIds[..], inUse), programs[..], configured, 0);
      for index := 0 to |configured|
        invariant |inUse| == MAX_PROGRAMS
        invariant PlacePrograms(Table(programUsed[..], programIds[..], inUse), programs[..], configured, index) == start
      {
        PlaceProgramUnfolds(Table(programUsed[..], programIds[..], inUse), programs[..], configured, index);
        var slot := ProgramSlotForId(configured[index].programId);
        if slot.None? { slot := FirstUnused(programUsed); }
        ClaimIs(programUsed[..], programIds[..], configured[index].programId);
        if slot.None? { return false; }
        WriteProgram(slot.value, configured[index]);
        inUse := inUse[slot.value := true];
      }
      PlaceProgramEnds(Table(programUsed[..], programIds[..], inUse), programs[..], configured);
      SetFlags(programUsed, inUse);
      return true;
    }

    method ProgramIsConfigured(c: IrrigationConfiguration, id: Text) returns (found: bool)
      ensures found == ProgramIndexFrom(c.programs, id, 0).Some?
    {
      for index := 0 to |c.programs|
        invariant ProgramIndexFrom(c.programs, id, index) == ProgramIndexFrom(c.programs, id, 0)
      {
        if c.programs[index].programId == id { return true; }
      }
      return false;
    }

    method RebuildScheduleSlots(c: IrrigationConfiguration)
      requires ViewsValid() && |c.schedules| <= MAX_SCHEDULES
      modifies scheduleUsed, scheduleIds, schedules
      ensures ViewsValid() && GetViews() == RebuildSchedules(old(GetViews()), c)
    {
      hide Claim, PlaceSchedules, ProgramSlot, RefsInRange;
      var inUse := NO_SCHEDULE_IN_USE;
      ghost var v := GetViews();
      ghost var start := PlaceSchedules(Table(scheduleUsed[..], scheduleIds[..], inUse), schedules[..], v, c, 0);
      for index := 0 to |c.schedules|
        invariant |inUse| == MAX_SCHEDULES && RefsInRange(schedules[..])
        invariant programUsed[..] == v.programUsed && programIds[..] == v.programIds && programs[..] == v.programs
        invariant PlaceSchedules(Table(scheduleUsed[..], scheduleIds[..], inUse), schedules[..], v, c, index) == start
      {
        var s := c.schedules[index];
        PlaceScheduleUnfolds(Table(scheduleUsed[..], scheduleIds[..], inUse), schedules[..], v, c, index);
        var configured := ProgramIsConfigured(c, s.programId);
        var slot := ScheduleSlotForId(s.scheduleId);
        if slot.None? { slot := FirstUnused(scheduleUsed); }
        ClaimIs(scheduleUsed[..], scheduleIds[..], s.scheduleId);
        ProgramSlotIs(v, c, s.programId);
        if slot.None? || !configured { return; }
        var programSlot := ProgramSlotForId(s.programId);
        if programSlot.None? { return; }
        inUse := inUse[slot.value := true];
        scheduleUsed[slot.value] := true;
        scheduleIds[slot.value] := CopyText(s.scheduleId);
        schedules[index] := EntryRef(slot.value, s.enabled, s.weekdayMask, s.hour, s.minute, programSlot.value);
      }
      PlaceScheduleEnds(Table(scheduleUsed[..], scheduleIds[..], inUse), schedules[..], v, c);
      SetFlags(scheduleUsed, inUse);
    }

    method RebuildRuntimeViews(c: IrrigationConfiguration, rebuildPrograms: bool)
      requires ViewsValid() && |c.schedules| <= MAX_SCHEDULES
      modifies programUsed, programIds, programs, scheduleUsed, scheduleIds, schedules
      ensures ViewsValid() && GetViews() == Rebuild(old(GetViews()), c, rebuildPrograms)
    {
      hide RebuildPrograms, RebuildSchedules;
      if rebuildPrograms {
        var complete := RebuildProgramSlots(c.programs);
        if !complete { return; }
      }
      RebuildScheduleSlots(c);
    }

    // ----- Replacing the configuration -----

    /** A scheduler whose entries point into the arrays of this manager. */
    ghost predicate Serves(bound: SchedulerService)
      reads bound, bound.store, bound.entries
    {
      bound.Valid() && bound.ids == scheduleIds && bound.programs == programs && bound.entries != schedules
    }

    /** Hands the views to the scheduler. */
    method ConfigureScheduler(bound: SchedulerService, count: nat) returns (result: IrrigationResult)
      requires Valid() && Serves(bound) && (scheduler == null || scheduler == bound) && count <= MAX_SCHEDULES
      modifies bound, bound.entries, bound.store
      ensures Serves(bound) && bound.store.current == old(bound.store.current).(scheduler := bound.store.current.scheduler)
      ensures Valid() && GetViews() == old(GetViews())
      ensures (GetLive(bound), result) == ManagerOperations.ConfigureLive(old(GetLive(bound)), GetViews(), count)
    {
      hide RefInRange, Schedules.EntriesAcceptable, Schedules.Reconfigured;
      assert RefsInRange(schedules[..count]) by { ManagerOperations.RefsPrefix(schedules[..], count); assert schedules[..][..count] == schedules[..count]; }
      assert schedules[..][..count] == schedules[..count];
      result := bound.ConfigureLocked(schedules, count);
    }

    /** Saves a candidate, or does without a repository where none is required. */
    method Persist(candidate: IrrigationConfiguration) returns (stored: bool)
      requires Valid()
      modifies RepositoryParts()
      ensures Valid() && State() == old(State())
      ensures (GetBacking(), stored) == ManagerOperations.Persist(old(GetBacking()), candidate, boardZones, old(NextSave()))
    {
      hide SlotStore.Save;
      if repository == null { return !persistenceRequired; }
      var saved := repository.Save(candidate, boardZones);
      return saved == Codec.RepositoryOk;
    }

    /** Saves a candidate and puts it in force, or leaves everything as it is. */
    method Commit(candidate: IrrigationConfiguration) returns (ok: bool)
      requires Valid() && |candidate.schedules| <= MAX_SCHEDULES
      modifies this, RepositoryParts()
      ensures Valid() && scheduler == old(scheduler) && repository == old(repository)
      ensures persistenceRequired == old(persistenceRequired)
      ensures State() == old(State()).(configuration := if ok then candidate else old(configuration))
      ensures (GetBacking(), ok) == ManagerOperations.Persist(old(GetBacking()), candidate, boardZones, old(NextSave()))
    {
      hide ManagerOperations.Persist, Shape;
      ok := Persist(candidate);
      if ok { configuration := candidate; }
    }

    /** The views and the scheduler are made to agree with a configuration, as far as they can be. */
    method Reconcile(bound: SchedulerService, c: IrrigationConfiguration, changed: bool) returns (result: IrrigationResult)
      requires Valid() && bound == scheduler && |c.schedules| <= MAX_SCHEDULES
      modifies programUsed, programIds, programs, scheduleUsed, scheduleIds, schedules, bound, bound.entries, bound.store
      ensures Valid() && GetViews() == Rebuild(old(GetViews()), c, changed)
      ensures GetBacking() == old(GetBacking()) && NextSave() == old(NextSave())
      ensures (GetLive(bound), result) == ManagerOperations.ConfigureLive(old(GetLive(bound)), GetViews(), |c.schedules|)
    {
      hide Rebuild, ManagerOperations.ConfigureLive;
      RebuildRuntimeViews(c, changed);
      result := ConfigureScheduler(bound, |c.schedules|);
    }

    /** With a scheduler: it is reconfigured first, and put back when it refuses or saving fails. */
    method ReplaceWithScheduler(bound: SchedulerService, candidate: IrrigationConfiguration, changed: bool)
      returns (result: IrrigationResult, ghost stored: bool)
      requires Valid() && bound == scheduler && |candidate.schedules| <= MAX_SCHEDULES
      modifies this, programUsed, programIds, programs, scheduleUsed, scheduleIds, schedules, SchedulerParts(), RepositoryParts()
      ensures Valid() && scheduler == old(scheduler) && repository == old(repository)
      ensures persistenceRequired == old(persistenceRequired)
      ensures (State(), result) == ManagerOperations.ReplaceBound(old(State()), old(GetLive(bound)), candidate, changed, stored)
      ensures var views := Rebuild(old(GetViews()), candidate, changed);
              if ManagerOperations.ConfigureLive(old(GetLive(bound)), views, |candidate.schedules|).1 == Ok
              then (GetBacking(), stored) == ManagerOperations.Persist(old(GetBacking()), candidate, boardZones, old(NextSave()))
              else GetBacking() == old(GetBacking()) && !stored
    {
      hide Rebuild, ManagerOperations.ConfigureLive, RefsInRange, Shape, ManagerOperations.Persist;
      stored := false;
      result := Reconcile(bound, candidate, changed);
      if result == Ok {
        var ok := Commit(candidate);
        stored := ok;
        if ok { return; }
        result := InternalError;
      }
      var restored := Reconcile(bound, configuration, changed);
      if restored != Ok { result := InternalError; }
    }

    /** The candidate takes the place of the configuration, saved where it has to be, or everything is put back. */
    method ReplaceCandidate(candidate: IrrigationConfiguration) returns (result: IrrigationResult)
      requires Valid()
      modifies this, programUsed, programIds, programs, scheduleUsed, scheduleIds, schedules, SchedulerParts(), RepositoryParts()
      ensures Valid() && scheduler == old(scheduler) && repository == old(repository)
      ensures persistenceRequired == old(persistenceRequired)
      ensures (State(), GetBacking(), result) ==
        ManagerOperations.ReplaceSaved(old(State()), old(GetBacking()), candidate, boardZones, old(NextSave()))
    {
      hide Rebuild, Configuration.Valid, ManagerOperations.ReplaceBound, ManagerOperations.Persist, ManagerOperations.ConfigureLive,
           Shape, RefsInRange;
      var valid := Validate(candidate, boardZones);
      if valid != Ok { return Rejected; }
      ValidSizes(candidate, boardZones);
      var changed := configuration.programs != candidate.programs;
      if scheduler != null {
        ghost var stored;
        result, stored := ReplaceWithScheduler(scheduler, candidate, changed);
        return;
      }
      var ok := Commit(candidate);
      if !ok { return InternalError; }
      RebuildRuntimeViews(configuration, changed);
      return Ok;
    }

    // ----- Mutations: a draft of the new configuration, then its replacement -----

    method RenameZone(zone: Text, name: Text)
      returns (result: IrrigationResult)
      requires Valid()
      modifies this, programUsed, programIds, programs, scheduleUsed, scheduleIds, schedules, SchedulerParts(), RepositoryParts()
      ensures Valid()
      ensures (State(), GetBacking(), result) ==
        Mutate(old(State()), old(GetBacking()), Mutation.RenameZone(zone, name), boardZones, old(NextSave()))
    {
      hide ManagerOperations.ReplaceSaved, Decimal;
      for index := 0 to |configuration.zones|
        invariant ZoneIndexFrom(configuration.zones, zone, index) == ZoneIndexFrom(configuration.zones, zone, 0)
        invariant Valid() && State() == old(State()) && GetBacking() == old(GetBacking()) && NextSave() == old(NextSave())
        invariant SchedulerParts() == old(SchedulerParts()) && RepositoryParts() == old(RepositoryParts())
      {
        if configuration.zones[index].zoneId == zone {
          var renamed := configuration.zones[index].(displayName := CopyText(name));
          result := ReplaceCandidate(configuration.(zones := configuration.zones[index := renamed]));
          return;
        }
      }
      return NotFound;
    }

    method CreateProgram(name: Text, steps: seq<StepConfiguration>)
      returns (result: IrrigationResult)
      requires Valid()
      modifies this, programUsed, programIds, programs, scheduleUsed, scheduleIds, schedules, SchedulerParts(), RepositoryParts()
      ensures Valid()
      ensures (State(), GetBacking(), result) ==
        Mutate(old(State()), old(GetBacking()), Mutation.CreateProgram(name, steps), boardZones, old(NextSave()))
    {
      hide ManagerOperations.ReplaceSaved, Decimal;
      if |steps| > MAX_PROGRAM_STEPS { return Rejected; }
      if |configuration.programs| >= MAX_PROGRAMS { return Rejected; }
      var id := ProgramId(configuration.nextProgramId);
      var candidate := configuration.(nextProgramId := Next(configuration.nextProgramId));
      candidate := candidate.(programs := candidate.programs + [ProgramConfiguration(id, CopyText(name), steps)]);
      result := ReplaceCandidate(candidate);
    }

    method UpdateProgram(index: nat, name: Text, steps: seq<StepConfiguration>)
      returns (result: IrrigationResult)
      requires Valid()
      modifies this, programUsed, programIds, programs, scheduleUsed, scheduleIds, schedules, SchedulerParts(), RepositoryParts()
      ensures Valid()
      ensures (State(), GetBacking(), result) ==
        Mutate(old(State()), old(GetBacking()), Mutation.UpdateProgram(index, name, steps), boardZones, old(NextSave()))
    {
      hide ManagerOperations.ReplaceSaved, Decimal;
      if |steps| > MAX_PROGRAM_STEPS { return Rejected; }
      if index >= |configuration.programs| { return NotFound; }
      var program := configuration.programs[index].(displayName := CopyText(name), steps := steps);
      result := ReplaceCandidate(configuration.(programs := configuration.programs[index := program]));
    }

    method DeleteProgram(index: nat)
      returns (result: IrrigationResult)
      requires Valid()
      modifies this, programUsed, programIds, programs, scheduleUsed, scheduleIds, schedules, SchedulerParts(), RepositoryParts()
      ensures Valid()
      ensures (State(), GetBacking(), result) ==
        Mutate(old(State()), old(GetBacking()), Mutation.DeleteProgram(index), boardZones, old(NextSave()))
    {
      hide ManagerOperations.ReplaceSaved, Decimal;
      if index >= |configuration.programs| { return NotFound; }
      var referenced := IsReferenced(configuration.schedules, configuration.programs[index].programId);
      if referenced { return Referenced; }
      var remaining := RemoveAt(configuration.programs, index);
      result := ReplaceCandidate(configuration.(programs := remaining));
    }

    method CreateSchedule(weekdayMask: byte, hour: byte, minute: byte, program: Text, leftover: bool)
      returns (result: IrrigationResult)
      requires Valid()
      modifies this, programUsed, programIds, programs, scheduleUsed, scheduleIds, schedules, SchedulerParts(), RepositoryParts()
      ensures Valid()
      ensures (State(), GetBacking(), result) ==
        Mutate(old(State()), old(GetBacking()), Mutation.CreateSchedule(weekdayMask, hour, minute, program, leftover), boardZones, old(NextSave()))
    {
      hide ManagerOperations.ReplaceSaved, Decimal;
      if |configuration.schedules| >= MAX_SCHEDULES { return Rejected; }
      var id := ScheduleId(configuration.nextScheduleId);
      var candidate := configuration.(nextScheduleId := Next(configuration.nextScheduleId));
      var schedule := ScheduleConfiguration(id, leftover, weekdayMask, hour, minute, CopyText(program));
      candidate := candidate.(schedules := candidate.schedules + [schedule]);
      result := ReplaceCandidate(candidate);
    }

    method UpdateSchedule(index: nat, weekdayMask: byte, hour: byte, minute: byte, program: Text)
      returns (result: IrrigationResult)
      requires Valid()
      modifies this, programUsed, programIds, programs, scheduleUsed, scheduleIds, schedules, SchedulerParts(), RepositoryParts()
      ensures Valid()
      ensures (State(), GetBacking(), result) ==
        Mutate(old(State()), old(GetBacking()), Mutation.UpdateSchedule(index, weekdayMask, hour, minute, program), boardZones, old(NextSave()))
    {
      hide ManagerOperations.ReplaceSaved, Decimal;
      if index >= |configuration.schedules| { return NotFound; }
      var schedule := configuration.schedules[index];
      schedule := schedule.(weekdayMask := weekdayMask, hour := hour, minute := minute);
      schedule := schedule.(programId := CopyText(program));
      result := ReplaceCandidate(configuration.(schedules := configuration.schedules[index := schedule]));
    }

    method DeleteSchedule(index: nat)
      returns (result: IrrigationResult)
      requires Valid()
      modifies this, programUsed, programIds, programs, scheduleUsed, scheduleIds, schedules, SchedulerParts(), RepositoryParts()
      ensures Valid()
      ensures (State(), GetBacking(), result) ==
        Mutate(old(State()), old(GetBacking()), Mutation.DeleteSchedule(index), boardZones, old(NextSave()))
    {
      hide ManagerOperations.ReplaceSaved, Decimal;
      if index >= |configuration.schedules| { return NotFound; }
      var remaining := RemoveAt(configuration.schedules, index);
      result := ReplaceCandidate(configuration.(schedules := remaining));
    }

    method EnableSchedule(index: nat, enabled: bool)
      returns (result: IrrigationResult)
      requires Valid()
      modifies this, programUsed, programIds, programs, scheduleUsed, scheduleIds, schedules, SchedulerParts(), RepositoryParts()
      ensures Valid()
      ensures (State(), GetBacking(), result) ==
        Mutate(old(State()), old(GetBacking()), Mutation.EnableSchedule(index, enabled), boardZones, old(NextSave()))
    {
      hide ManagerOperations.ReplaceSaved, Decimal;
      if index >= |configuration.schedules| { return NotFound; }
      var schedule := configuration.schedules[index].(enabled := enabled);
      result := ReplaceCandidate(configuration.(schedules := configuration.schedules[index := schedule]));
    }

    method IsReferenced(schedules: seq<ScheduleConfiguration>, program: Text) returns (referenced: bool)
      ensures referenced <==> NamedBySome(schedules, program)
    {
      for index := 0 to |schedules|
        invariant forall i | 0 <= i < index :: schedules[i].programId != program
      {
        if schedules[index].programId == program { return true; }
      }
      return false;
    }

    /** The elements behind `index` move one place forward. */
    method RemoveAt<T>(s: seq<T>, index: nat) returns (remaining: seq<T>)
      requires index < |s|
      ensures remaining == Without(s, index)
    {
      remaining := s;
      for i := index + 1 to |s|
        invariant |remaining| == |s|
        invariant remaining[..index] == s[..index] && remaining[index..i - 1] == s[index + 1..i] && remaining[i - 1..] == s[i - 1..]
      {
        assert remaining[i] == remaining[i - 1..][1] == s[i];
        var moved := remaining[i - 1 := remaining[i]];
        assert moved[index..i] == remaining[index..i - 1] + [s[i]] && s[index + 1..i + 1] == s[index + 1..i] + [s[i]];
        assert moved[i..] == remaining[i - 1..][1..] == s[i..];
        remaining := moved;
      }
      assert remaining[..|s| - 1] == remaining[..index] + remaining[index..|s| - 1];
      remaining := remaining[..|s| - 1];
    }

    // ----- Boot -----

    method SetRepository(repository: Repository?, persistenceRequired: bool)
      requires Valid() && (repository != null ==> repository.Valid())
      modifies this
      ensures Valid() && State() == old(State())
      ensures this.repository == repository && this.persistenceRequired == persistenceRequired && scheduler == old(scheduler)
    {
      this.repository, this.persistenceRequired := repository, persistenceRequired;
    }

    method BindScheduler(bound: SchedulerService)
      requires Valid() && Serves(bound)
      modifies this`scheduler
      ensures Valid() && scheduler == bound
      ensures State() == old(State()).(live := Some(GetLive(bound)))
    {
      scheduler := bound;
    }

    /** A scheduler without entries takes over those of the views; if it refuses them it is not bound. */
    method JoinScheduler(bound: SchedulerService) returns (running: bool)
      requires Valid() && Serves(bound) && scheduler == null
      requires GetLive(bound) == ManagerOperations.Live([], Initial().scheduler)
      modifies this`scheduler, bound, bound.entries, bound.store
      ensures Valid() && (State(), running) == ManagerOperations.JoinScheduler(old(State()))
      ensures bound.store.current == old(bound.store.current).(scheduler := bound.store.current.scheduler)
    {
      hide ManagerOperations.ConfigureLive, RefsInRange, Shape;
      var configured := ConfigureScheduler(bound, |configuration.schedules|);
      running := configured == Ok;
      if running { BindScheduler(bound); }
    }

    /** The stored configuration takes the place of the defaults; where there is none the defaults are stored. */
    method LoadOrPersistDefaults(stored: Repository) returns (result: ManagerOperations.BootResult)
      requires Valid() && scheduler == null && stored.Valid()
      modifies this, programUsed, programIds, programs, scheduleUsed, scheduleIds, schedules,
               stored.storage, stored.slotBuffers[0], stored.slotBuffers[1]
      ensures Valid() && scheduler == null && repository == old(repository) && persistenceRequired == old(persistenceRequired)
      ensures stored.Valid()
      ensures (State(), stored.storage.Both(), result) ==
        ManagerOperations.LoadOrPersist(old(State()), old(stored.storage.Both()), boardZones, old(BootOf(stored.storage)))
    {
      hide Rebuild, SlotStore.Load, SlotStore.Save, Configuration.Valid;
      var loaded := stored.Load(boardZones);
      assert loaded == old(ManagerOperations.BootSees(stored.storage.Both(), boardZones, BootOf(stored.storage)));
      if loaded.result == Codec.RepositoryOk {
        ValidSizes(loaded.configuration, boardZones);
        configuration := loaded.configuration;
        RebuildRuntimeViews(configuration, true);
        return ManagerOperations.BootLoaded;
      }
      if loaded.result == Codec.SlotsEmpty {
        var saved := stored.Save(configuration, boardZones);
        return if saved == Codec.RepositoryOk then ManagerOperations.BootDefaultsPersisted else ManagerOperations.BootStorageError;
      }
      return match loaded.result
             case Incompatible => ManagerOperations.BootDefaultsIncompatible
             case StorageError => ManagerOperations.BootStorageError
             case _ => ManagerOperations.BootDefaultsCorrupt;
    }

    /** How storage will behave during a boot. */
    static ghost function BootOf(storage: Storage): ManagerOperations.BootOutcome
      reads storage
    {
      ManagerOperations.BootOutcome(storage.readFails(storage.readCount), storage.readFails(storage.readCount + 1),
                                    storage.SaveAt(storage.readCount + 2))
    }
  }

  // ----- One step of the loops -----

  lemma BlankViews(v: Views)
    requires |v.programUsed| == |v.programIds| == |v.programs| == MAX_PROGRAMS
    requires |v.scheduleUsed| == |v.scheduleIds| == |v.schedules| == MAX_SCHEDULES
    requires forall i | 0 <= i < MAX_PROGRAMS :: !v.programUsed[i] && v.programIds[i] == [] && v.programs[i] == Program([], [], 0)
    requires forall i | 0 <= i < MAX_SCHEDULES ::
               !v.scheduleUsed[i] && v.scheduleIds[i] == [] && v.schedules[i] == EntryRef(0, false, 0, 0, 0, 0)
    ensures v == NoViews() && RefsInRange(v.schedules)
  {
  }

  lemma ValidSizes(c: IrrigationConfiguration, boardZones: seq<Zone>)
    requires Configuration.Valid(c, boardZones)
    ensures |c.schedules| <= MAX_SCHEDULES
  {
  }

  lemma ClaimIs(used: seq<bool>, ids: seq<Text>, id: Text)
    requires |used| == |ids|
    ensures Claim(used, ids, id) == if SlotOf(used, ids, id).Some? then SlotOf(used, ids, id) else UnusedSlot(used)
  {
  }

  lemma PlaceProgramUnfolds(t: Table, programs: seq<Program>, configured: seq<ProgramConfiguration>, index: nat)
    requires Shaped(t) && |programs| == |t.used| && index < |configured|
    ensures var slot := Claim(t.used, t.ids, configured[index].programId);
            PlacePrograms(t, programs, configured, index) ==
            if slot.None? then (t, programs, false)
            else PlacePrograms(Take(t, slot.value, configured[index].programId), programs[slot.value := ProgramOf(configured[index])],
                               configured, index + 1)
  {
    hide Claim, ProgramOf, Take;
  }

  lemma PlaceProgramEnds(t: Table, programs: seq<Program>, configured: seq<ProgramConfiguration>)
    requires Shaped(t) && |programs| == |t.used|
    ensures PlacePrograms(t, programs, configured, |configured|) == (t, programs, true)
  {
  }

  lemma ProgramSlotIs(v: Views, c: IrrigationConfiguration, id: Text)
    requires Shape(v)
    ensures ProgramSlot(v, c, id) ==
      if ProgramIndexFrom(c.programs, id, 0).None? then None else SlotOf(v.programUsed, v.programIds, id)
  {
  }

  lemma PlaceScheduleUnfolds(t: Table, refs: seq<EntryRef>, v: Views, c: IrrigationConfiguration, index: nat)
    requires Shaped(t) && |refs| == |t.used| == MAX_SCHEDULES && RefsInRange(refs) && Shape(v)
    requires index < |c.schedules| <= MAX_SCHEDULES
    ensures var s := c.schedules[index];
            var slot, programSlot := Claim(t.used, t.ids, s.scheduleId), ProgramSlot(v, c, s.programId);
            && (slot.None? || programSlot.None? ==> PlaceSchedules(t, refs, v, c, index) == (t, refs, false))
            && (slot.Some? && programSlot.Some? ==>
                && RefsInRange(refs[index := RefOf(s, slot.value, programSlot.value)])
                && PlaceSchedules(t, refs, v, c, index) ==
                   PlaceSchedules(Take(t, slot.value, s.scheduleId), refs[index := RefOf(s, slot.value, programSlot.value)], v, c, index + 1))
  {
    hide Claim, ProgramSlot, Take;
  }

  lemma PlaceScheduleEnds(t: Table, refs: seq<EntryRef>, v: Views, c: IrrigationConfiguration)
    requires Shaped(t) && |refs| == |t.used| == MAX_SCHEDULES && RefsInRange(refs) && Shape(v) && |c.schedules| <= MAX_SCHEDULES
    ensures PlaceSchedules(t, refs, v, c, |c.schedules|) == (t, refs, true)
  {
  }
}
