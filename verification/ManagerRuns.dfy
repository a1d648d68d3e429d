/** The mutations of the configuration manager, and what every run of them keeps. */
module ManagerRuns {
  import opened Bytes
  import opened Common
  import opened Decimals
  import opened Configuration
  import opened RuntimeStates
  import opened SlotTables
  import opened RuntimeViews
  import opened SlotStore
  import opened ManagerOperations

  // ----- Generated ids -----

  /** "program-" and "schedule-". */
  const PROGRAM_PREFIX: Text := [0x70, 0x72, 0x6f, 0x67, 0x72, 0x61, 0x6d, 0x2d]
  const SCHEDULE_PREFIX: Text := [0x73, 0x63, 0x68, 0x65, 0x64, 0x75, 0x6c, 0x65, 0x2d]

  function ProgramId(n: u32): Text { PROGRAM_PREFIX + Decimal(n) }
  function ScheduleId(n: u32): Text { SCHEDULE_PREFIX + Decimal(n) }

  lemma IdsAreInjective(m: u32, n: u32)
    ensures ProgramId(m) == ProgramId(n) ==> m == n
    ensures ScheduleId(m) == ScheduleId(n) ==> m == n
  {
    if ProgramId(m) == ProgramId(n) {
      assert Decimal(m) == ProgramId(m)[|PROGRAM_PREFIX|..] && Decimal(n) == ProgramId(n)[|PROGRAM_PREFIX|..];
      DecimalIsInjective(m, n);
    }
    if ScheduleId(m) == ScheduleId(n) {
      assert Decimal(m) == ScheduleId(m)[|SCHEDULE_PREFIX|..] && Decimal(n) == ScheduleId(n)[|SCHEDULE_PREFIX|..];
      DecimalIsInjective(m, n);
    }
  }

  function Next(n: u32): u32 {
    (n + 1) % 0x1_0000_0000
  }

  // ----- Mutations -----

  /**
   `leftover` is the flag of the array element a new schedule takes: creating a schedule sets every field but `enabled`, which
   keeps what the element held before.
   */
  datatype Mutation =
    | RenameZone(zone: Text, name: Text)
    | CreateProgram(name: Text, steps: seq<StepConfiguration>)
    | UpdateProgram(index: nat, name: Text, steps: seq<StepConfiguration>)
    | DeleteProgram(index: nat)
    | CreateSchedule(weekdayMask: byte, hour: byte, minute: byte, program: Text, leftover: bool)
    | UpdateSchedule(index: nat, weekdayMask: byte, hour: byte, minute: byte, program: Text)
    | DeleteSchedule(index: nat)
    | EnableSchedule(index: nat, enabled: bool)

  datatype Draft = Refuse(reason: Failure) | Draft(candidate: IrrigationConfiguration)

  function Without<T>(s: seq<T>, index: nat): (r: seq<T>)
    requires index < |s|
    ensures |r| == |s| - 1
  {
    s[..index] + s[index + 1..]
  }

  function ZoneIndexFrom(zones: seq<ZoneConfiguration>, id: Text, from: nat): (index: Option<nat>)
    requires from <= |zones|
    ensures index.Some? ==> from <= index.value < |zones| && zones[index.value].zoneId == id
    decreases |zones| - from
  {
    if from == |zones| then None else if zones[from].zoneId == id then Some(from) else ZoneIndexFrom(zones, id, from + 1)
  }

  predicate NamedBySome(schedules: seq<ScheduleConfiguration>, program: Text) {
    exists i :: 0 <= i < |schedules| && schedules[i].programId == program
  }

  function DraftOf(c: IrrigationConfiguration, mutation: Mutation): Draft {
    match mutation
    case RenameZone(zone, name) =>
      var index := ZoneIndexFrom(c.zones, zone, 0);
      if index.None? then Refuse(NotFound)
      else Draft(c.(zones := c.zones[index.value := c.zones[index.value].(displayName := CopyText(name))]))
    case CreateProgram(name, steps) =>
      if |steps| > MAX_PROGRAM_STEPS || |c.programs| >= MAX_PROGRAMS then Refuse(Rejected)
      else
        Draft(c.(programs := c.programs + [ProgramConfiguration(ProgramId(c.nextProgramId), CopyText(name), steps)],
                 nextProgramId := Next(c.nextProgramId)))
    case UpdateProgram(index, name, steps) =>
      if |steps| > MAX_PROGRAM_STEPS then Refuse(Rejected)
      else if index >= |c.programs| then Refuse(NotFound)
      else Draft(c.(programs := c.programs[index := c.programs[index].(displayName := CopyText(name), steps := steps)]))
    case DeleteProgram(index) =>
      if index >= |c.programs| then Refuse(NotFound)
      else if NamedBySome(c.schedules, c.programs[index].programId) then Refuse(Referenced)
      else Draft(c.(programs := Without(c.programs, index)))
    case CreateSchedule(weekdayMask, hour, minute, program, leftover) =>
      if |c.schedules| >= MAX_SCHEDULES then Refuse(Rejected)
      else
        var schedule := ScheduleConfiguration(ScheduleId(c.nextScheduleId), leftover, weekdayMask, hour, minute, CopyText(program));
        Draft(c.(schedules := c.schedules + [schedule], nextScheduleId := Next(c.nextScheduleId)))
    case UpdateSchedule(index, weekdayMask, hour, minute, program) =>
      if index >= |c.schedules| then Refuse(NotFound)
      else
        var schedule := c.schedules[index].(weekdayMask := weekdayMask, hour := hour, minute := minute, programId := CopyText(program));
        Draft(c.(schedules := c.schedules[index := schedule]))
    case DeleteSchedule(index) =>
      if index >= |c.schedules| then Refuse(NotFound) else Draft(c.(schedules := Without(c.schedules, index)))
    case EnableSchedule(index, enabled) =>
      if index >= |c.schedules| then Refuse(NotFound)
      else Draft(c.(schedules := c.schedules[index := c.schedules[index].(enabled := enabled)]))
  }

  /** A mutation together with its save. */
  function Mutate(m: Manager, b: Backing, mutation: Mutation, boardZones: seq<Zone>, o: SaveOutcome): (Manager, Backing, IrrigationResult)
    requires Usable(m)
  {
    match DraftOf(m.configuration, mutation)
    case Refuse(reason) => (m, b, reason)
    case Draft(candidate) => ReplaceSaved(m, b, candidate, boardZones, o)
  }

  // ----- A mutation always fits -----

  lemma {:induction false} IdsCount(ids: seq<Text>)
    ensures |IdsOf(ids)| <= |ids|
    decreases |ids|
  {
    if ids == [] {
      assert IdsOf(ids) == {};
    } else {
      var init := ids[..|ids| - 1];
      IdsCount(init);
      assert IdsOf(ids) == IdsOf(init) + {ids[|ids| - 1]};
    }
  }

  /** The ids of the candidate are among those of the configuration, or one more than them with a place to spare. */
  lemma IdsFit(a: seq<Text>, b: seq<Text>, capacity: nat)
    requires |a| <= capacity && ((forall i | 0 <= i < |b| :: b[i] in a) || (|a| < capacity && |b| == |a| + 1 && b[..|a|] == a))
    ensures |IdsOf(a) + IdsOf(b)| <= capacity
  {
    IdsCount(a);
    if forall i | 0 <= i < |b| :: b[i] in a {
      assert IdsOf(a) + IdsOf(b) == IdsOf(a);
    } else {
      var extra := b[|a|];
      assert forall i | 0 <= i < |a| :: b[i] == b[..|a|][i];
      assert IdsOf(a) + IdsOf(b) == IdsOf(a) + {extra};
    }
  }

  lemma DraftFits(c: IrrigationConfiguration, mutation: Mutation, boardZones: seq<Zone>)
    requires Valid(c, boardZones) && DraftOf(c, mutation).Draft?
    ensures FitTogether(c, DraftOf(c, mutation).candidate)
  {
    hide Valid, NamedBySome, ZoneIndexFrom, Decimal;
    ValidIds(c, boardZones);
    var d := DraftOf(c, mutation).candidate;
    var p, q := ProgramIds(c.programs), ProgramIds(d.programs);
    var s, t := ScheduleIds(c.schedules), ScheduleIds(d.schedules);
    assert (forall i | 0 <= i < |q| :: q[i] in p) || (|q| == |p| + 1 && q[..|p|] == p && |p| < MAX_PROGRAMS) by {
      ProgramIdsOfDraft(c, mutation);
    }
    assert (forall i | 0 <= i < |t| :: t[i] in s) || (|t| == |s| + 1 && t[..|s|] == s && |s| < MAX_SCHEDULES) by {
      ScheduleIdsOfDraft(c, mutation);
    }
    IdsFit(p, q, MAX_PROGRAMS);
    IdsFit(s, t, MAX_SCHEDULES);
  }

  lemma ProgramIdsOfDraft(c: IrrigationConfiguration, mutation: Mutation)
    requires DraftOf(c, mutation).Draft?
    ensures var p, q := ProgramIds(c.programs), ProgramIds(DraftOf(c, mutation).candidate.programs);
            || (mutation.CreateProgram? && |q| == |p| + 1 && q[..|p|] == p && |p| < MAX_PROGRAMS)
            || (!mutation.CreateProgram? && forall i | 0 <= i < |q| :: q[i] in p)
  {
    hide NamedBySome, ZoneIndexFrom, Decimal;
    var p, q := ProgramIds(c.programs), ProgramIds(DraftOf(c, mutation).candidate.programs);
    if !mutation.CreateProgram? {
      forall i | 0 <= i < |q| ensures q[i] in p {
        if mutation.DeleteProgram? && i >= mutation.index {
          assert q[i] == p[i + 1];
        } else {
          assert q[i] == p[i];
        }
      }
    }
  }

  lemma ScheduleIdsOfDraft(c: IrrigationConfiguration, mutation: Mutation)
    requires DraftOf(c, mutation).Draft?
    ensures var s, t := ScheduleIds(c.schedules), ScheduleIds(DraftOf(c, mutation).candidate.schedules);
            || (mutation.CreateSchedule? && |t| == |s| + 1 && t[..|s|] == s && |s| < MAX_SCHEDULES)
            || (!mutation.CreateSchedule? && forall i | 0 <= i < |t| :: t[i] in s)
  {
    hide NamedBySome, ZoneIndexFrom, Decimal;
    var s, t := ScheduleIds(c.schedules), ScheduleIds(DraftOf(c, mutation).candidate.schedules);
    if !mutation.CreateSchedule? {
      forall i | 0 <= i < |t| ensures t[i] in s {
        if mutation.DeleteSchedule? && i >= mutation.index {
          assert t[i] == s[i + 1];
        } else {
          assert t[i] == s[i];
        }
      }
    }
  }

  /** No mutation takes away a program that a schedule names. */
  lemma DraftKeepsPrograms(c: IrrigationConfiguration, mutation: Mutation, boardZones: seq<Zone>, j: nat)
    requires Valid(c, boardZones) && DraftOf(c, mutation).Draft? && j < |c.schedules|
    ensures c.schedules[j].programId in ProgramIds(DraftOf(c, mutation).candidate.programs)
  {
    hide Valid, ZoneIndexFrom, Decimal;
    ProgramConfigured(c, boardZones, j);
    var id := c.schedules[j].programId;
    var p, q := ProgramIds(c.programs), ProgramIds(DraftOf(c, mutation).candidate.programs);
    var i :| 0 <= i < |p| && p[i] == id;
    if mutation.DeleteProgram? {
      assert i != mutation.index;
      assert if i < mutation.index then q[i] == id else q[i - 1] == id;
    } else {
      assert q[i] == id;
    }
  }

  // ----- One mutation -----

  /** In any state, also one whose views do not agree: OK means that the draft was valid and saved; anything else keeps the old one. */
  lemma MutationAnswers(m: Manager, b: Backing, mutation: Mutation, boardZones: seq<Zone>, o: SaveOutcome)
    requires Usable(m)
    ensures var (after, saved, result) := Mutate(m, b, mutation, boardZones, o); var draft := DraftOf(m.configuration, mutation);
            && Usable(after) && (after.live.Some? <==> m.live.Some?)
            && (result == Ok ==>
                && draft.Draft? && Valid(draft.candidate, boardZones) && after.configuration == draft.candidate
                && (saved, true) == Persist(b, draft.candidate, boardZones, o))
            && (result != Ok ==> after.configuration == m.configuration)
            && (saved == b ||
                (draft.Draft? && Valid(draft.candidate, boardZones) && saved == Persist(b, draft.candidate, boardZones, o).0))
  {
    hide Valid, DraftOf, Persist, Replace, Reaches;
    var draft := DraftOf(m.configuration, mutation);
    if draft.Draft? {
      var reached := Reaches(m, draft.candidate, boardZones);
      ReplaceAnswers(m, draft.candidate, boardZones, reached && Persist(b, draft.candidate, boardZones, o).1);
    }
  }

  lemma ReplaceAnswers(m: Manager, candidate: IrrigationConfiguration, boardZones: seq<Zone>, stored: bool)
    requires Usable(m)
    ensures var (after, result) := Replace(m, candidate, boardZones, stored);
            && Usable(after) && (after.live.Some? <==> m.live.Some?)
            && (result == Ok ==> Reaches(m, candidate, boardZones) && stored && after.configuration == candidate)
            && (result != Ok ==> after.configuration == m.configuration)
    ensures Reaches(m, candidate, boardZones) ==> Valid(candidate, boardZones)
  {
    hide Valid, Rebuild, ConfigureLive;
    if Valid(candidate, boardZones) { ValidIds(candidate, boardZones); }
  }

  /**
   A create, update or delete is all or nothing: OK exactly when its draft is valid and the save is acknowledged, and then the
   draft is in force; on any failure the configuration is unchanged, and the scheduler's entries are by value what they were.
   Either way the occurrences of every entry the mutation did not touch stay. Every valid draft reaches the save.
   */
  lemma MutationIsAllOrNothing(m: Manager, b: Backing, mutation: Mutation, boardZones: seq<Zone>, o: SaveOutcome)
    requires InForce(m, boardZones)
    ensures var (after, saved, result) := Mutate(m, b, mutation, boardZones, o); var draft := DraftOf(m.configuration, mutation);
            && (result == Ok <==> draft.Draft? && Valid(draft.candidate, boardZones) && Persist(b, draft.candidate, boardZones, o).1)
            && saved == (if draft.Draft? && Valid(draft.candidate, boardZones) then Persist(b, draft.candidate, boardZones, o).0 else b)
            && InForce(after, boardZones)
            && (result == Ok ==> after.configuration == draft.candidate &&
                                 OccurrencesKept(m.configuration, m.live, draft.candidate, after.live))
            && (result != Ok ==> after.configuration == m.configuration && EntriesOf(after) == EntriesOf(m))
            && (result != Ok && m.live.Some? ==>
                && after.live.Some?
                && forall j | 0 <= j < |m.configuration.schedules| &&
                           (draft.Refuse? || m.configuration.schedules[j] in draft.candidate.schedules) ::
                  after.live.value.table.occurrences[j] == m.live.value.table.occurrences[j])
  {
    hide Valid, Refines, DraftOf, Replace, OccurrencesKept, TableRow, Persist, Reaches, FitTogether;
    var draft := DraftOf(m.configuration, mutation);
    if draft.Draft? {
      DraftFits(m.configuration, mutation, boardZones);
      ValidReaches(m, draft.candidate, boardZones);
      var stored := Reaches(m, draft.candidate, boardZones) && Persist(b, draft.candidate, boardZones, o).1;
      ReplaceIsAllOrNothing(m, draft.candidate, boardZones, stored);
      if !Valid(draft.candidate, boardZones) {
        ReplaceRejects(m, draft.candidate, boardZones, stored);
      } else if !stored {
        if m.live.None? {
          ReplaceUnstored(m, draft.candidate, boardZones);
        } else {
          forall j | 0 <= j < |m.configuration.schedules|
            ensures m.configuration.schedules[j].programId in ProgramIds(draft.candidate.programs)
          {
            DraftKeepsPrograms(m.configuration, mutation, boardZones, j);
          }
          RollbackRestoresEntries(m, draft.candidate, boardZones);
        }
      }
    }
  }

  lemma ValidReaches(m: Manager, candidate: IrrigationConfiguration, boardZones: seq<Zone>)
    requires InForce(m, boardZones) && FitTogether(m.configuration, candidate)
    ensures Reaches(m, candidate, boardZones) <==> Valid(candidate, boardZones)
  {
    hide Valid, InForce, FitTogether, Rebuild, ConfigureLive, SlotsKept, OccurrencesKept;
    assert Usable(m) by { InForceIsUsable(m, boardZones); }
    if Valid(candidate, boardZones) && m.live.Some? { Forward(m, candidate, boardZones); }
  }

  lemma InForceIsUsable(m: Manager, boardZones: seq<Zone>)
    requires InForce(m, boardZones)
    ensures Usable(m)
  {
  }

  lemma ReplaceRejects(m: Manager, candidate: IrrigationConfiguration, boardZones: seq<Zone>, stored: bool)
    requires Usable(m) && !Valid(candidate, boardZones)
    ensures Replace(m, candidate, boardZones, stored) == (m, Rejected)
  {
  }

  lemma ReplaceUnstored(m: Manager, candidate: IrrigationConfiguration, boardZones: seq<Zone>)
    requires Usable(m) && Valid(candidate, boardZones) && m.live.None?
    ensures Replace(m, candidate, boardZones, false) == (m, InternalError)
  {
    hide Valid;
  }

  // ----- Counters -----

  lemma CountersOfDraft(c: IrrigationConfiguration, mutation: Mutation)
    requires DraftOf(c, mutation).Draft?
    ensures var d := DraftOf(c, mutation).candidate;
            && d.nextProgramId == (if mutation.CreateProgram? then Next(c.nextProgramId) else c.nextProgramId)
            && d.nextScheduleId == (if mutation.CreateSchedule? then Next(c.nextScheduleId) else c.nextScheduleId)
  {
    hide NamedBySome, ZoneIndexFrom, Decimal;
  }

  // ----- Boot -----

  /** The defaults, once valid, are in force; no slot was in use before. */
  lemma DefaultsAreInForce(blank: Views, defaults: IrrigationConfiguration, boardZones: seq<Zone>)
    requires Valid(defaults, boardZones) && Shape(blank)
    requires (forall i | 0 <= i < MAX_PROGRAMS :: !blank.programUsed[i]) && (forall i | 0 <= i < MAX_SCHEDULES :: !blank.scheduleUsed[i])
    ensures |defaults.schedules| <= MAX_SCHEDULES
    ensures InForce(Manager(defaults, Rebuild(blank, defaults, true), None), boardZones)
  {
    hide Valid, Rebuild, Refines, Room;
    ValidIds(defaults, boardZones);
    assert UsedIds(blank.programUsed, blank.programIds) == {} == UsedIds(blank.scheduleUsed, blank.scheduleIds);
    EmptyHasRoom(blank.programUsed, blank.programIds, ProgramIds(defaults.programs));
    EmptyHasRoom(blank.scheduleUsed, blank.scheduleIds, ScheduleIds(defaults.schedules));
    RebuildRefines(blank, defaults, boardZones);
    RefinedShape(Rebuild(blank, defaults, true), defaults);
  }

  lemma EmptyHasRoom(used: seq<bool>, ids: seq<Text>, wanted: seq<Text>)
    requires |used| == |ids| && UsedIds(used, ids) == {} && |wanted| <= |used|
    ensures Room(used, ids, wanted)
  {
    IdsCount(wanted);
    assert UsedIds(used, ids) + IdsOf(wanted) == IdsOf(wanted);
  }

  /** A scheduler without entries takes over the entries of the configuration in force. */
  lemma SchedulerJoins(m: Manager, table: SchedulerRuntime, boardZones: seq<Zone>)
    requires InForce(m, boardZones) && table.count == 0
    ensures var (live, result) := ConfigureLive(Live([], table), m.views, |m.configuration.schedules|);
            result == Ok && InForce(m.(live := Some(live)), boardZones)
  {
    hide Valid, Refines;
    RefinedAcceptable(m.views, m.configuration, boardZones);
  }

  /**
   A configuration loaded at boot takes the place of the defaults, whose slots are still in use: the views agree with it if and
   only if its ids and those of the defaults fit together.
   */
  lemma BootLoadRefines(m: Manager, c: IrrigationConfiguration, boardZones: seq<Zone>)
    requires InForce(m, boardZones) && Valid(c, boardZones)
    ensures |c.schedules| <= MAX_SCHEDULES
    ensures Refines(Rebuild(m.views, c, true), c) <==> FitTogether(m.configuration, c)
  {
    hide Valid, Rebuild, Refines;
    ValidIds(c, boardZones);
    RefinedShape(m.views, m.configuration);
    RefinedHolds(m.views, m.configuration);
    HeldIds(m.views.programUsed, m.views.programIds, ProgramIds(m.configuration.programs));
    HeldIds(m.views.scheduleUsed, m.views.scheduleIds, ScheduleIds(m.configuration.schedules));
    RebuildRefines(m.views, c, boardZones);
  }

  function NamedProgram(c: byte): ProgramConfiguration
    requires c != 0
  {
    ProgramConfiguration([c], [c], [])
  }

  function SomePrograms(programs: seq<ProgramConfiguration>): IrrigationConfiguration {
    IrrigationConfiguration(SCHEMA_VERSION, [], programs, [], 1, 1)
  }

  const ONE_PROGRAM: seq<ProgramConfiguration> := [NamedProgram(0x64)]
  const FOUR_PROGRAMS: seq<ProgramConfiguration> := [NamedProgram(0x61), NamedProgram(0x62), NamedProgram(0x63), NamedProgram(0x65)]

  lemma SomeProgramsAreValid()
    ensures Valid(SomePrograms(ONE_PROGRAM), []) && Valid(SomePrograms(FOUR_PROGRAMS), [])
  {
    forall i, j | 0 <= i < j < 4 ensures FOUR_PROGRAMS[i].programId != FOUR_PROGRAMS[j].programId {
      assert FOUR_PROGRAMS[i].programId[0] != FOUR_PROGRAMS[j].programId[0];
    }
  }

  /** One default program and four other stored ones: after the boot load the views do not agree with the configuration. */
  lemma BootLoadCanFail(blank: Views)
    requires Shape(blank)
    requires (forall i | 0 <= i < MAX_PROGRAMS :: !blank.programUsed[i]) && (forall i | 0 <= i < MAX_SCHEDULES :: !blank.scheduleUsed[i])
    ensures var defaults, c := SomePrograms(ONE_PROGRAM), SomePrograms(FOUR_PROGRAMS);
            Valid(defaults, []) && Valid(c, []) && !Refines(Rebuild(Rebuild(blank, defaults, true), c, true), c)
  {
    hide Rebuild, Refines, Valid, InForce;
    var defaults, c := SomePrograms(ONE_PROGRAM), SomePrograms(FOUR_PROGRAMS);
    SomeProgramsAreValid();
    DefaultsAreInForce(blank, defaults, []);
    BootLoadRefines(Manager(defaults, Rebuild(blank, defaults, true), None), c, []);
    FiveIds(ProgramIds(defaults.programs), ProgramIds(c.programs));
  }

  lemma FiveIds(a: seq<Text>, b: seq<Text>)
    requires a == [[0x64]] && b == [[0x61], [0x62], [0x63], [0x65]]
    ensures |IdsOf(a) + IdsOf(b)| == 5
  {
    var ids: set<Text> := {[0x64], [0x61], [0x62], [0x63], [0x65]};
    forall x | x in ids ensures x in IdsOf(a) + IdsOf(b) {
      assert a[0] == [0x64] && b[0] == [0x61] && b[1] == [0x62] && b[2] == [0x63] && b[3] == [0x65];
    }
    assert IdsOf(a) + IdsOf(b) == ids;
    var p: Text, q: Text, r: Text, s: Text, t: Text := [0x64], [0x61], [0x62], [0x63], [0x65];
    assert p[0] != q[0] && p[0] != r[0] && p[0] != s[0] && p[0] != t[0] && q[0] != r[0] && q[0] != s[0] && q[0] != t[0]
        && r[0] != s[0] && r[0] != t[0] && s[0] != t[0];
  }
}
