/** What each mutation makes of the configuration, field by field, and exactly when it is accepted. */
module MutationMeanings {
  import opened Bytes
  import opened Common
  import opened Texts
  import opened Decimals
  import opened Configuration
  import opened ConfigurationMeanings
  import opened Schedules
  import opened SchedulerServices
  import opened SlotTables
  import opened RuntimeViews
  import opened SlotStore
  import Codec
  import opened ManagerOperations
  import opened ManagerRuns

  // ----- Lists and ids -----

  /** The same elements, except perhaps the one at `index`. */
  predicate ChangedAt<T(==)>(before: seq<T>, after: seq<T>, index: nat) {
    index < |before| == |after| && forall j | 0 <= j < |before| && j != index :: after[j] == before[j]
  }

  /** The same elements in the same order, without the one at `index`. */
  predicate RemovedAt<T(==)>(before: seq<T>, after: seq<T>, index: nat) {
    && index < |before| == |after| + 1
    && (forall j | 0 <= j < index :: after[j] == before[j])
    && (forall j | index <= j < |after| :: after[j] == before[j + 1])
  }

  /** The same elements, and one more at the end. */
  predicate Appended<T(==)>(before: seq<T>, after: seq<T>) {
    |after| == |before| + 1 && forall j | 0 <= j < |before| :: after[j] == before[j]
  }

  /** The prefix and then the digits of the number. */
  predicate IsGenerated(id: Text, prefix: string, n: u32) {
    |prefix| <= |id| && id[..|prefix|] == Ascii(prefix) && IsNumeral(id[|prefix|..], n)
  }

  function Successor(n: u32): u32 {
    if n == 0xffff_ffff then 0 else n + 1
  }

  // ----- What a mutation means -----

  /** `d` is what the mutation is supposed to make of `c`. */
  ghost predicate Meant(c: IrrigationConfiguration, mutation: Mutation, d: IrrigationConfiguration) {
    match mutation
    case RenameZone(zone, name) =>
      && d == c.(zones := d.zones)
      && exists k :: ZoneRenamed(c.zones, d.zones, k, zone, name)
    case CreateProgram(name, steps) =>
      && d == c.(programs := d.programs, nextProgramId := Successor(c.nextProgramId))
      && Appended(c.programs, d.programs)
      && var p := d.programs[|c.programs|];
         IsGenerated(p.programId, "program-", c.nextProgramId) && IsCut(p.displayName, name) && p.steps == steps
    case UpdateProgram(index, name, steps) =>
      && d == c.(programs := d.programs)
      && ChangedAt(c.programs, d.programs, index)
      && var p := d.programs[index];
         p.programId == c.programs[index].programId && IsCut(p.displayName, name) && p.steps == steps
    case DeleteProgram(index) =>
      d == c.(programs := d.programs) && RemovedAt(c.programs, d.programs, index)
    case CreateSchedule(weekdayMask, hour, minute, program, leftover) =>
      && d == c.(schedules := d.schedules, nextScheduleId := Successor(c.nextScheduleId))
      && Appended(c.schedules, d.schedules)
      && var s := d.schedules[|c.schedules|];
         && IsGenerated(s.scheduleId, "schedule-", c.nextScheduleId) && s.enabled == leftover
         && s.weekdayMask == weekdayMask && s.hour == hour && s.minute == minute && IsCut(s.programId, program)
    case UpdateSchedule(index, weekdayMask, hour, minute, program) =>
      && d == c.(schedules := d.schedules)
      && ChangedAt(c.schedules, d.schedules, index)
      && var s := d.schedules[index];
         && s.scheduleId == c.schedules[index].scheduleId && s.enabled == c.schedules[index].enabled
         && s.weekdayMask == weekdayMask && s.hour == hour && s.minute == minute && IsCut(s.programId, program)
    case DeleteSchedule(index) =>
      d == c.(schedules := d.schedules) && RemovedAt(c.schedules, d.schedules, index)
    case EnableSchedule(index, enabled) =>
      && d == c.(schedules := d.schedules)
      && ChangedAt(c.schedules, d.schedules, index)
      && d.schedules[index] == c.schedules[index].(enabled := enabled)
  }

  /** The first zone with the id has another name. */
  predicate ZoneRenamed(before: seq<ZoneConfiguration>, after: seq<ZoneConfiguration>, k: nat, zone: Text, name: Text) {
    && ChangedAt(before, after, k)
    && before[k].zoneId == after[k].zoneId == zone && (forall j | 0 <= j < k :: before[j].zoneId != zone)
    && IsCut(after[k].displayName, name)
  }

  // ----- When it is accepted -----

  /** A time of day, some days of the week, and a configured program. */
  predicate ScheduleFits(c: IrrigationConfiguration, weekdayMask: byte, hour: byte, minute: byte, program: Text) {
    && 1 <= weekdayMask <= 127 && hour <= 23 && minute <= 59
    && exists k :: 0 <= k < |c.programs| && IsCut(c.programs[k].programId, program)
  }

  predicate ArgumentsFit(c: IrrigationConfiguration, mutation: Mutation) {
    match mutation
    case RenameZone(_, name) => NameFits(name)
    case CreateProgram(name, steps) =>
      && NameFits(name) && StepsFit(c, steps)
      && forall k | 0 <= k < |c.programs| :: !IsGenerated(c.programs[k].programId, "program-", c.nextProgramId)
    case UpdateProgram(_, name, steps) => NameFits(name) && StepsFit(c, steps)
    case CreateSchedule(weekdayMask, hour, minute, program, _) =>
      && ScheduleFits(c, weekdayMask, hour, minute, program)
      && forall k | 0 <= k < |c.schedules| :: !IsGenerated(c.schedules[k].scheduleId, "schedule-", c.nextScheduleId)
    case UpdateSchedule(_, weekdayMask, hour, minute, program) => ScheduleFits(c, weekdayMask, hour, minute, program)
    case _ => true
  }

  /** More steps than eight, a fifth program or a seventeenth schedule. */
  predicate TooMany(c: IrrigationConfiguration, mutation: Mutation) {
    || (mutation.CreateProgram? && |c.programs| >= 4)
    || (mutation.CreateSchedule? && |c.schedules| >= 16)
    || ((mutation.CreateProgram? || mutation.UpdateProgram?) && |mutation.steps| > 8)
  }

  /** What the mutation names is configured. */
  predicate Found(c: IrrigationConfiguration, mutation: Mutation) {
    match mutation
    case RenameZone(zone, _) => IsZoneOf(c.zones, zone)
    case UpdateProgram(index, _, _) => index < |c.programs|
    case DeleteProgram(index) => index < |c.programs|
    case UpdateSchedule(index, _, _, _, _) => index < |c.schedules|
    case DeleteSchedule(index) => index < |c.schedules|
    case EnableSchedule(index, _) => index < |c.schedules|
    case _ => true
  }

  /** A schedule runs the program that is to be deleted. */
  predicate StillNamed(c: IrrigationConfiguration, mutation: Mutation) {
    && mutation.DeleteProgram? && mutation.index < |c.programs|
    && exists i :: 0 <= i < |c.schedules| && c.schedules[i].programId == c.programs[mutation.index].programId
  }

  /** The answer, from the configuration, the arguments and the save alone. */
  function AnswerTo(c: IrrigationConfiguration, mutation: Mutation, saved: bool): IrrigationResult {
    if TooMany(c, mutation) then Rejected
    else if !Found(c, mutation) then NotFound
    else if StillNamed(c, mutation) then Referenced
    else if !ArgumentsFit(c, mutation) then Rejected
    else if saved then Ok
    else InternalError
  }

  // ----- The drafts are what is meant -----

  lemma GeneratedIds(id: Text, n: u32)
    ensures IsGenerated(id, "program-", n) <==> id == ProgramId(n)
    ensures IsGenerated(id, "schedule-", n) <==> id == ScheduleId(n)
  {
    assert Ascii("program-") == PROGRAM_PREFIX && Ascii("schedule-") == SCHEDULE_PREFIX;
    assert ProgramId(n)[..8] == PROGRAM_PREFIX && ProgramId(n)[8..] == Decimal(n);
    assert ScheduleId(n)[..9] == SCHEDULE_PREFIX && ScheduleId(n)[9..] == Decimal(n);
    DecimalIsTheNumeral(Decimal(n), n);
    if IsGenerated(id, "program-", n) {
      DecimalIsTheNumeral(id[8..], n);
      assert id == id[..8] + id[8..];
    }
    if IsGenerated(id, "schedule-", n) {
      DecimalIsTheNumeral(id[9..], n);
      assert id == id[..9] + id[9..];
    }
  }

  lemma {:induction false} FirstZone(zones: seq<ZoneConfiguration>, zone: Text, from: nat)
    requires from <= |zones|
    ensures var index := ZoneIndexFrom(zones, zone, from);
            && (index.Some? <==> exists k :: from <= k < |zones| && zones[k].zoneId == zone)
            && (index.Some? ==> forall j | from <= j < index.value :: zones[j].zoneId != zone)
    decreases |zones| - from
  {
    if from < |zones| { FirstZone(zones, zone, from + 1); }
  }

  lemma DraftRefuses(c: IrrigationConfiguration, mutation: Mutation)
    ensures DraftOf(c, mutation).Refuse? <==> TooMany(c, mutation) || !Found(c, mutation) || StillNamed(c, mutation)
    ensures DraftOf(c, mutation).Refuse? ==> forall saved :: DraftOf(c, mutation).reason == AnswerTo(c, mutation, saved)
  {
    hide ArgumentsFit, ZoneIndexFrom, CopyText, ProgramId, ScheduleId;
    if mutation.RenameZone? { FirstZone(c.zones, mutation.zone, 0); }
  }

  lemma DraftMeans(c: IrrigationConfiguration, mutation: Mutation)
    requires DraftOf(c, mutation).Draft?
    ensures Meant(c, mutation, DraftOf(c, mutation).candidate)
  {
    hide IsGenerated, ZoneIndexFrom, CopyText, ProgramId, ScheduleId, NamedBySome, IsCut;
    var d := DraftOf(c, mutation).candidate;
    match mutation
    case RenameZone(zone, name) =>
      FirstZone(c.zones, zone, 0);
      CopyIsCut(CopyText(name), name);
      assert ZoneRenamed(c.zones, d.zones, ZoneIndexFrom(c.zones, zone, 0).value, zone, name);
    case CreateProgram(name, steps) =>
      CopyIsCut(CopyText(name), name);
      GeneratedIds(ProgramId(c.nextProgramId), c.nextProgramId);
    case UpdateProgram(index, name, steps) =>
      CopyIsCut(CopyText(name), name);
    case CreateSchedule(weekdayMask, hour, minute, program, leftover) =>
      CopyIsCut(CopyText(program), program);
      GeneratedIds(ScheduleId(c.nextScheduleId), c.nextScheduleId);
    case UpdateSchedule(index, weekdayMask, hour, minute, program) =>
      CopyIsCut(CopyText(program), program);
    case _ =>
  }

  /** The meaning leaves no choice. */
  lemma MeantIsUnique(c: IrrigationConfiguration, mutation: Mutation, d: IrrigationConfiguration, e: IrrigationConfiguration)
    requires Meant(c, mutation, d) && Meant(c, mutation, e)
    ensures d == e
  {
    hide IsGenerated;
    match mutation
    case RenameZone(zone, name) =>
      assert d.zones == e.zones;
    case CreateProgram(name, steps) =>
      GeneratedIds(d.programs[|c.programs|].programId, c.nextProgramId);
      GeneratedIds(e.programs[|c.programs|].programId, c.nextProgramId);
      assert d.programs == e.programs;
    case UpdateProgram(index, name, steps) =>
      assert d.programs == e.programs;
    case DeleteProgram(index) =>
      assert d.programs == e.programs;
    case CreateSchedule(weekdayMask, hour, minute, program, leftover) =>
      GeneratedIds(d.schedules[|c.schedules|].scheduleId, c.nextScheduleId);
      GeneratedIds(e.schedules[|c.schedules|].scheduleId, c.nextScheduleId);
      assert d.schedules == e.schedules;
    case UpdateSchedule(index, weekdayMask, hour, minute, program) =>
      assert d.schedules == e.schedules;
    case DeleteSchedule(index) =>
      assert d.schedules == e.schedules;
    case EnableSchedule(index, enabled) =>
      assert d.schedules == e.schedules;
  }

  // ----- Validity of a draft -----

  lemma GeneratedIsText(n: u32)
    ensures ValidText(ProgramId(n)) && ValidText(ScheduleId(n))
  {
    hide Decimal;
    DecimalIsNumeral(n);
    DigitsOfWord(n);
    assert forall c | c in Decimal(n) :: IsAllowed(c);
    assert forall c | c in ProgramId(n) :: c in PROGRAM_PREFIX || c in Decimal(n);
    assert forall c | c in ScheduleId(n) :: c in SCHEDULE_PREFIX || c in Decimal(n);
  }

  lemma ScheduleOfDraft(c: IrrigationConfiguration, s: ScheduleConfiguration, program: Text, boardZones: seq<Zone>)
    requires Valid(c, boardZones) && ValidText(s.scheduleId) && s.programId == CopyText(program)
    ensures ValidSchedule(s, c.programs) <==> ScheduleFits(c, s.weekdayMask, s.hour, s.minute, program)
  {
    hide CopyText, IsCut, ValidText;
    forall k | 0 <= k < |c.programs|
      ensures IsCut(c.programs[k].programId, program) <==> c.programs[k].programId == s.programId
      ensures ValidText(c.programs[k].programId)
    {
      CopyIsCut(c.programs[k].programId, program);
      assert ValidProgram(c.programs[k], boardZones);
    }
  }

  lemma RenamedIsValid(c: IrrigationConfiguration, k: nat, name: Text, boardZones: seq<Zone>)
    requires Valid(c, boardZones) && k < |c.zones|
    ensures Valid(c.(zones := c.zones[k := c.zones[k].(displayName := name)]), boardZones) <==> ValidText(name)
  {
    hide ValidText, HasZone, ValidProgram, ValidSchedule;
    var zones := c.zones[k := c.zones[k].(displayName := name)];
    assert ValidZone(c.zones[k], boardZones);
    assert ValidZone(zones[k], boardZones) <==> ValidText(name);
  }

  lemma ProgramAdded(c: IrrigationConfiguration, p: ProgramConfiguration, next: u32, boardZones: seq<Zone>)
    requires Valid(c, boardZones) && |c.programs| < MAX_PROGRAMS
    ensures Valid(c.(programs := c.programs + [p], nextProgramId := next), boardZones) <==>
      ValidProgram(p, boardZones) && forall k | 0 <= k < |c.programs| :: c.programs[k].programId != p.programId
  {
    hide ValidText, HasZone, ValidProgram, ValidSchedule, ValidZone;
    var programs := c.programs + [p];
    forall j | 0 <= j < |c.schedules| ensures ValidSchedule(c.schedules[j], programs) {
      NamedInMore(c.schedules[j], c.programs, programs);
    }
    if Valid(c.(programs := programs, nextProgramId := next), boardZones) {
      assert ValidProgram(programs[|c.programs|], boardZones);
      forall k | 0 <= k < |c.programs| ensures c.programs[k].programId != p.programId {
        assert programs[k].programId != programs[|c.programs|].programId;
      }
    }
  }

  lemma NamedInMore(s: ScheduleConfiguration, programs: seq<ProgramConfiguration>, more: seq<ProgramConfiguration>)
    requires ValidSchedule(s, programs) && |programs| <= |more|
    requires forall i | 0 <= i < |programs| :: more[i].programId == programs[i].programId
    ensures ValidSchedule(s, more)
  {
    var i :| 0 <= i < |programs| && programs[i].programId == s.programId;
    assert more[i].programId == s.programId;
  }

  lemma ProgramChanged(c: IrrigationConfiguration, index: nat, p: ProgramConfiguration, boardZones: seq<Zone>)
    requires Valid(c, boardZones) && index < |c.programs| && p.programId == c.programs[index].programId
    ensures Valid(c.(programs := c.programs[index := p]), boardZones) <==> ValidProgram(p, boardZones)
  {
    hide ValidText, HasZone, ValidProgram, ValidSchedule, ValidZone;
    var programs := c.programs[index := p];
    forall j | 0 <= j < |c.schedules| ensures ValidSchedule(c.schedules[j], programs) {
      NamedInMore(c.schedules[j], c.programs, programs);
    }
    assert programs[index] == p;
  }

  lemma ProgramRemoved(c: IrrigationConfiguration, index: nat, boardZones: seq<Zone>)
    requires Valid(c, boardZones) && index < |c.programs| && !NamedBySome(c.schedules, c.programs[index].programId)
    ensures Valid(c.(programs := Without(c.programs, index)), boardZones)
  {
    hide ValidText, HasZone, ValidProgram, ValidZone;
    var programs := Without(c.programs, index);
    forall j | 0 <= j < |c.schedules| ensures ValidSchedule(c.schedules[j], programs) {
      assert ValidSchedule(c.schedules[j], c.programs);
      var i :| 0 <= i < |c.programs| && c.programs[i].programId == c.schedules[j].programId;
      assert i != index;
      assert programs[if i < index then i else i - 1] == c.programs[i];
    }
  }

  lemma ScheduleAdded(c: IrrigationConfiguration, s: ScheduleConfiguration, next: u32, boardZones: seq<Zone>)
    requires Valid(c, boardZones) && |c.schedules| < MAX_SCHEDULES
    ensures Valid(c.(schedules := c.schedules + [s], nextScheduleId := next), boardZones) <==>
      ValidSchedule(s, c.programs) && forall k | 0 <= k < |c.schedules| :: c.schedules[k].scheduleId != s.scheduleId
  {
    hide ValidText, HasZone, ValidProgram, ValidSchedule, ValidZone;
    var schedules := c.schedules + [s];
    if Valid(c.(schedules := schedules, nextScheduleId := next), boardZones) {
      assert ValidSchedule(schedules[|c.schedules|], c.programs);
      forall k | 0 <= k < |c.schedules| ensures c.schedules[k].scheduleId != s.scheduleId {
        assert schedules[k].scheduleId != schedules[|c.schedules|].scheduleId;
      }
    }
  }

  lemma ScheduleChanged(c: IrrigationConfiguration, index: nat, s: ScheduleConfiguration, boardZones: seq<Zone>)
    requires Valid(c, boardZones) && index < |c.schedules| && s.scheduleId == c.schedules[index].scheduleId
    ensures Valid(c.(schedules := c.schedules[index := s]), boardZones) <==> ValidSchedule(s, c.programs)
  {
    hide ValidText, HasZone, ValidProgram, ValidSchedule, ValidZone;
    assert c.schedules[index := s][index] == s;
  }

  lemma ScheduleRemoved(c: IrrigationConfiguration, index: nat, boardZones: seq<Zone>)
    requires Valid(c, boardZones) && index < |c.schedules|
    ensures Valid(c.(schedules := Without(c.schedules, index)), boardZones)
  {
    hide ValidText, HasZone, ValidProgram, ValidSchedule, ValidZone;
  }

  /** A draft of a valid configuration is valid exactly when the arguments fit. */
  lemma DraftIsValid(c: IrrigationConfiguration, mutation: Mutation, boardZones: seq<Zone>)
    requires Valid(c, boardZones) && DraftOf(c, mutation).Draft?
    ensures Valid(DraftOf(c, mutation).candidate, boardZones) <==> ArgumentsFit(c, mutation)
  {
    hide Valid, ValidText, NameFits, StepsFit, ScheduleFits, IsGenerated, CopyText, ProgramId, ScheduleId, ValidSchedule,
         HasZone, ZoneIndexFrom, ValidStep, NamedBySome;
    match mutation
    case RenameZone(zone, name) =>
      NameIsValid(name);
      RenamedIsValid(c, ZoneIndexFrom(c.zones, zone, 0).value, CopyText(name), boardZones);
    case CreateProgram(name, steps) =>
      var id := ProgramId(c.nextProgramId);
      NameIsValid(name);
      StepsAreValid(c, steps, boardZones);
      GeneratedIsText(c.nextProgramId);
      forall k | 0 <= k < |c.programs|
        ensures IsGenerated(c.programs[k].programId, "program-", c.nextProgramId) <==> c.programs[k].programId == id
      {
        GeneratedIds(c.programs[k].programId, c.nextProgramId);
      }
      ProgramAdded(c, ProgramConfiguration(id, CopyText(name), steps), Next(c.nextProgramId), boardZones);
    case UpdateProgram(index, name, steps) =>
      NameIsValid(name);
      StepsAreValid(c, steps, boardZones);
      assert ValidText(c.programs[index].programId) by { ProgramTextIsValid(c, index, boardZones); }
      ProgramChanged(c, index, c.programs[index].(displayName := CopyText(name), steps := steps), boardZones);
    case DeleteProgram(index) =>
      ProgramRemoved(c, index, boardZones);
    case CreateSchedule(weekdayMask, hour, minute, program, leftover) =>
      var id := ScheduleId(c.nextScheduleId);
      var s := ScheduleConfiguration(id, leftover, weekdayMask, hour, minute, CopyText(program));
      GeneratedIsText(c.nextScheduleId);
      ScheduleOfDraft(c, s, program, boardZones);
      forall k | 0 <= k < |c.schedules|
        ensures IsGenerated(c.schedules[k].scheduleId, "schedule-", c.nextScheduleId) <==> c.schedules[k].scheduleId == id
      {
        GeneratedIds(c.schedules[k].scheduleId, c.nextScheduleId);
      }
      ScheduleAdded(c, s, Next(c.nextScheduleId), boardZones);
    case UpdateSchedule(index, weekdayMask, hour, minute, program) =>
      var s := c.schedules[index].(weekdayMask := weekdayMask, hour := hour, minute := minute, programId := CopyText(program));
      assert ValidText(s.scheduleId) by { ScheduleTextIsValid(c, index, boardZones); }
      ScheduleOfDraft(c, s, program, boardZones);
      ScheduleChanged(c, index, s, boardZones);
    case DeleteSchedule(index) =>
      ScheduleRemoved(c, index, boardZones);
    case EnableSchedule(index, enabled) =>
      var s := c.schedules[index].(enabled := enabled);
      assert ValidSchedule(s, c.programs) by { ScheduleTextIsValid(c, index, boardZones); EnabledIsValid(c.schedules[index], enabled, c.programs); }
      ScheduleChanged(c, index, s, boardZones);
  }

  lemma ProgramTextIsValid(c: IrrigationConfiguration, index: nat, boardZones: seq<Zone>)
    requires Valid(c, boardZones) && index < |c.programs|
    ensures ValidText(c.programs[index].programId)
  {
    assert ValidProgram(c.programs[index], boardZones);
  }

  lemma ScheduleTextIsValid(c: IrrigationConfiguration, index: nat, boardZones: seq<Zone>)
    requires Valid(c, boardZones) && index < |c.schedules|
    ensures ValidSchedule(c.schedules[index], c.programs) && ValidText(c.schedules[index].scheduleId)
  {
  }

  lemma EnabledIsValid(s: ScheduleConfiguration, enabled: bool, programs: seq<ProgramConfiguration>)
    requires ValidSchedule(s, programs)
    ensures ValidSchedule(s.(enabled := enabled), programs)
  {
  }

  // ----- The main results -----

  /** A save is acknowledged by the repository, or, where none is bound, not required. */
  function Acknowledged(b: Backing, d: IrrigationConfiguration, boardZones: seq<Zone>, o: SaveOutcome): bool {
    if b.slots.None? then !b.required else Save(b.slots.value, d, boardZones, o).1 == Codec.RepositoryOk
  }

  /** The slots after a save, where there are any. */
  function SlotsAfter(b: Backing, d: IrrigationConfiguration, boardZones: seq<Zone>, o: SaveOutcome): Option<Slots> {
    if b.slots.None? then None else Some(Save(b.slots.value, d, boardZones, o).0)
  }

  lemma PersistIs(b: Backing, d: IrrigationConfiguration, boardZones: seq<Zone>, o: SaveOutcome)
    ensures Persist(b, d, boardZones, o) == (Backing(b.required, SlotsAfter(b, d, boardZones, o)), Acknowledged(b, d, boardZones, o))
  {
    hide Save;
  }

  predicate Accepted(c: IrrigationConfiguration, mutation: Mutation) {
    !TooMany(c, mutation) && Found(c, mutation) && !StillNamed(c, mutation) && ArgumentsFit(c, mutation)
  }

  /** In any state: a mutation that answers OK made of the configuration what it means, and any other changed nothing. */
  lemma MutationMeans(m: Manager, b: Backing, mutation: Mutation, boardZones: seq<Zone>, o: SaveOutcome)
    requires Usable(m)
    ensures var (after, _, result) := Mutate(m, b, mutation, boardZones, o);
            if result == Ok then Meant(m.configuration, mutation, after.configuration) else after.configuration == m.configuration
  {
    hide DraftOf, Meant, Mutate, Valid, Persist;
    MutationAnswers(m, b, mutation, boardZones, o);
    if DraftOf(m.configuration, mutation).Draft? { DraftMeans(m.configuration, mutation); }
  }

  /** Every mutation has a meaning where it is accepted. */
  lemma AcceptedHasMeaning(c: IrrigationConfiguration, mutation: Mutation)
    requires Accepted(c, mutation)
    ensures exists d :: Meant(c, mutation, d)
  {
    hide DraftOf, Meant, TooMany, Found, StillNamed, ArgumentsFit;
    DraftRefuses(c, mutation);
    DraftMeans(c, mutation);
  }

  /**
   The answer of every mutation is decided by the configuration, its arguments and whether the save is acknowledged: accepted ones
   save exactly what they mean, and nothing else is ever saved.
   */
  lemma MutationAnswersExactly(
    m: Manager, b: Backing, mutation: Mutation, d: IrrigationConfiguration, boardZones: seq<Zone>, o: SaveOutcome)
    requires InForce(m, boardZones)
    requires Accepted(m.configuration, mutation) ==> Meant(m.configuration, mutation, d)
    ensures Usable(m)
    ensures var c := m.configuration; var (after, saved, result) := Mutate(m, b, mutation, boardZones, o);
            && result == AnswerTo(c, mutation, Acknowledged(b, d, boardZones, o))
            && after.configuration == (if result == Ok then d else c)
            && saved == (if Accepted(c, mutation) then b.(slots := SlotsAfter(b, d, boardZones, o)) else b)
            && InForce(after, boardZones)
  {
    PersistIs(b, d, boardZones, o);
    hide Acknowledged, SlotsAfter, DraftOf, Meant, Mutate, Valid, Persist, TooMany, Found, StillNamed, ArgumentsFit, Refines, OccurrencesKept, EntriesOf;
    var c := m.configuration;
    InForceIsUsable(m, boardZones);
    MutationIsAllOrNothing(m, b, mutation, boardZones, o);
    DraftRefuses(c, mutation);
    if DraftOf(c, mutation).Draft? {
      DraftMeans(c, mutation);
      DraftIsValid(c, mutation, boardZones);
      if Accepted(c, mutation) {
        var candidate := DraftOf(c, mutation).candidate;
        MeantIsUnique(c, mutation, d, candidate);
        DraftFits(c, mutation, boardZones);
        ValidReaches(m, candidate, boardZones);
        if !Persist(b, candidate, boardZones, o).1 { UnsavedAnyway(m, b, mutation, boardZones, o); }
      } else {
        RejectedAnyway(m, b, mutation, boardZones, o);
      }
    } else {
      RefusedAnyway(m, b, mutation, boardZones, o);
    }
  }

  lemma RejectedAnyway(m: Manager, b: Backing, mutation: Mutation, boardZones: seq<Zone>, o: SaveOutcome)
    requires Usable(m) && DraftOf(m.configuration, mutation).Draft?
    requires !Valid(DraftOf(m.configuration, mutation).candidate, boardZones)
    ensures Mutate(m, b, mutation, boardZones, o) == (m, b, Rejected)
  {
    hide DraftOf, Valid, Persist;
    ReplaceRejects(m, DraftOf(m.configuration, mutation).candidate, boardZones, false);
  }

  lemma RefusedAnyway(m: Manager, b: Backing, mutation: Mutation, boardZones: seq<Zone>, o: SaveOutcome)
    requires Usable(m) && DraftOf(m.configuration, mutation).Refuse?
    ensures Mutate(m, b, mutation, boardZones, o) == (m, b, DraftOf(m.configuration, mutation).reason)
  {
    hide DraftOf;
  }

  lemma UnsavedAnyway(m: Manager, b: Backing, mutation: Mutation, boardZones: seq<Zone>, o: SaveOutcome)
    requires Usable(m) && DraftOf(m.configuration, mutation).Draft?
    requires var candidate := DraftOf(m.configuration, mutation).candidate;
             Reaches(m, candidate, boardZones) && !Persist(b, candidate, boardZones, o).1
    ensures Mutate(m, b, mutation, boardZones, o).2 == InternalError
  {
    hide DraftOf, Persist, Valid, Rebuild, ConfigureLive, Rollback;
  }

  // ----- What the scheduler gets -----

  /** In force: the scheduler's entries are the configured schedules, and each entry's slot holds its program. */
  lemma EntriesInForce(m: Manager, boardZones: seq<Zone>, k: nat)
    requires InForce(m, boardZones) && m.live.Some? && k < |m.configuration.schedules|
    ensures var live, s := m.live.value, m.configuration.schedules[k];
            && |live.entries| == live.table.count == |m.configuration.schedules| <= 16
            && live.entries[k].id < 16 && |m.views.scheduleIds| == 16
            && var entry := Resolve(live.entries[k], m.views.scheduleIds);
               && entry.id == s.scheduleId && entry.enabled == s.enabled && entry.weekdayMask == s.weekdayMask
               && entry.hour == s.hour && entry.minute == s.minute
               && entry.program < 4 == |m.views.programUsed| == |m.views.programIds|
               && m.views.programUsed[entry.program] && m.views.programIds[entry.program] == s.programId
  {
    hide Valid, Refines, Resolve;
    RefinedShape(m.views, m.configuration);
    EntryIs(m.views, m.configuration, k);
    assert m.live.value.entries[k] == m.views.schedules[k];
  }

  /** What the scheduler knows of a schedule after a mutation that was accepted: all that the mutation made of it. */
  lemma MutationReachesScheduler(m: Manager, b: Backing, mutation: Mutation, boardZones: seq<Zone>, o: SaveOutcome, k: nat)
    requires InForce(m, boardZones) && m.live.Some?
    requires Usable(m) && Mutate(m, b, mutation, boardZones, o).2 == Ok
    requires k < |Mutate(m, b, mutation, boardZones, o).0.configuration.schedules|
    ensures var after := Mutate(m, b, mutation, boardZones, o).0; var d := after.configuration;
            && after.live.Some? && Meant(m.configuration, mutation, d)
            && |after.live.value.entries| == |d.schedules|
            && after.live.value.entries[k].id < |after.views.scheduleIds|
            && var entry, s := Resolve(after.live.value.entries[k], after.views.scheduleIds), d.schedules[k];
               && entry.id == s.scheduleId && entry.enabled == s.enabled && entry.weekdayMask == s.weekdayMask
               && entry.hour == s.hour && entry.minute == s.minute
               && (mutation.EnableSchedule? && k == mutation.index ==> entry.enabled == mutation.enabled)
  {
    hide DraftOf, Mutate, Valid, Persist, InForce, EntriesOf, OccurrencesKept, Resolve;
    MutationIsAllOrNothing(m, b, mutation, boardZones, o);
    MutationAnswers(m, b, mutation, boardZones, o);
    MutationMeans(m, b, mutation, boardZones, o);
    EntriesInForce(Mutate(m, b, mutation, boardZones, o).0, boardZones, k);
  }
}
