/** The persistent irrigation configuration and its validation. */
module Configuration {
  import opened Bytes
  import opened Common

  const SCHEMA_VERSION: u16 := 1
  const TEXT_SIZE: nat := 32
  const MAX_STEP_DURATION_MS: u32 := 3_600_000

  datatype ZoneConfiguration = ZoneConfiguration(zoneId: Text, displayName: Text)
  datatype StepConfiguration = StepConfiguration(zoneId: Text, durationMs: u32)
  datatype ProgramConfiguration = ProgramConfiguration(programId: Text, displayName: Text, steps: seq<StepConfiguration>)
  datatype ScheduleConfiguration = ScheduleConfiguration(
    scheduleId: Text, enabled: bool, weekdayMask: byte, hour: byte, minute: byte, programId: Text)
  datatype IrrigationConfiguration = IrrigationConfiguration(
    schemaVersion: u16, zones: seq<ZoneConfiguration>, programs: seq<ProgramConfiguration>,
    schedules: seq<ScheduleConfiguration>, nextProgramId: u32, nextScheduleId: u32)

  // ----- What a valid configuration is -----

  predicate IsAllowed(c: byte) {
    || '0' as int <= c <= '9' as int
    || 'A' as int <= c <= 'Z' as int
    || 'a' as int <= c <= 'z' as int
    || c == ' ' as int || c == '-' as int || c == '_' as int
  }

  predicate ValidText(text: Text) {
    0 < |text| < TEXT_SIZE && forall c | c in text :: IsAllowed(c)
  }

  predicate HasZone(boardZones: seq<Zone>, zoneId: Text) {
    exists i | 0 <= i < |boardZones| :: boardZones[i].id == zoneId
  }

  predicate HasProgram(programs: seq<ProgramConfiguration>, programId: Text) {
    exists i | 0 <= i < |programs| :: programs[i].programId == programId
  }

  predicate ValidZone(zone: ZoneConfiguration, boardZones: seq<Zone>) {
    ValidText(zone.zoneId) && ValidText(zone.displayName) && HasZone(boardZones, zone.zoneId)
  }

  predicate ValidStep(step: StepConfiguration, boardZones: seq<Zone>) {
    ValidText(step.zoneId) && HasZone(boardZones, step.zoneId) && 0 < step.durationMs <= MAX_STEP_DURATION_MS
  }

  predicate ValidProgram(program: ProgramConfiguration, boardZones: seq<Zone>) {
    && ValidText(program.programId) && ValidText(program.displayName)
    && |program.steps| <= MAX_PROGRAM_STEPS
    && forall i | 0 <= i < |program.steps| :: ValidStep(program.steps[i], boardZones)
  }

  predicate ValidSchedule(schedule: ScheduleConfiguration, programs: seq<ProgramConfiguration>) {
    && ValidText(schedule.scheduleId) && ValidText(schedule.programId)
    && HasProgram(programs, schedule.programId)
    && 0 < schedule.weekdayMask < 0x80
    && schedule.hour < 24 && schedule.minute < 60
  }

  predicate DistinctZones(zones: seq<ZoneConfiguration>) {
    forall i, j | 0 <= i < j < |zones| :: zones[i].zoneId != zones[j].zoneId
  }

  predicate DistinctPrograms(programs: seq<ProgramConfiguration>) {
    forall i, j | 0 <= i < j < |programs| :: programs[i].programId != programs[j].programId
  }

  predicate DistinctSchedules(schedules: seq<ScheduleConfiguration>) {
    forall i, j | 0 <= i < j < |schedules| :: schedules[i].scheduleId != schedules[j].scheduleId
  }

  predicate Valid(c: IrrigationConfiguration, boardZones: seq<Zone>) {
    && c.schemaVersion == SCHEMA_VERSION
    && |boardZones| <= MAX_ZONES && |c.zones| == |boardZones|
    && |c.programs| <= MAX_PROGRAMS && |c.schedules| <= MAX_SCHEDULES
    && (forall i | 0 <= i < |c.zones| :: ValidZone(c.zones[i], boardZones))
    && DistinctZones(c.zones)
    && (forall i | 0 <= i < |c.programs| :: ValidProgram(c.programs[i], boardZones))
    && DistinctPrograms(c.programs)
    && (forall i | 0 <= i < |c.schedules| :: ValidSchedule(c.schedules[i], c.programs))
    && DistinctSchedules(c.schedules)
  }

  // ----- The loops that decide it -----

  method TextIsValid(text: Text) returns (valid: bool)
    ensures valid <==> ValidText(text)
  {
    if |text| == 0 || |text| >= TEXT_SIZE { return false; }
    for index := 0 to |text|
      invariant forall i | 0 <= i < index :: IsAllowed(text[i])
    {
      if !IsAllowed(text[index]) {
        assert text[index] in text;
        return false;
      }
    }
    return true;
  }

  method BoardZoneExists(boardZones: seq<Zone>, zoneId: Text) returns (found: bool)
    ensures found <==> HasZone(boardZones, zoneId)
  {
    for index := 0 to |boardZones|
      invariant forall i | 0 <= i < index :: boardZones[i].id != zoneId
    {
      if boardZones[index].id == zoneId { return true; }
    }
    return false;
  }

  method ProgramExists(programs: seq<ProgramConfiguration>, programId: Text) returns (found: bool)
    ensures found <==> HasProgram(programs, programId)
  {
    for index := 0 to |programs|
      invariant forall i | 0 <= i < index :: programs[i].programId != programId
    {
      if programs[index].programId == programId { return true; }
    }
    return false;
  }

  method ZoneIsValid(zone: ZoneConfiguration, boardZones: seq<Zone>) returns (valid: bool)
    ensures valid <==> ValidZone(zone, boardZones)
  {
    valid := TextIsValid(zone.zoneId);
    if valid { valid := TextIsValid(zone.displayName); }
    if valid { valid := BoardZoneExists(boardZones, zone.zoneId); }
  }

  method ProgramIsValid(program: ProgramConfiguration, boardZones: seq<Zone>) returns (valid: bool)
    ensures valid <==> ValidProgram(program, boardZones)
  {
    valid := TextIsValid(program.programId);
    if valid { valid := TextIsValid(program.displayName); }
    if !valid || |program.steps| > MAX_PROGRAM_STEPS { return false; }
    for index := 0 to |program.steps|
      invariant forall i | 0 <= i < index :: ValidStep(program.steps[i], boardZones)
    {
      var step := program.steps[index];
      var ok := TextIsValid(step.zoneId);
      if ok { ok := BoardZoneExists(boardZones, step.zoneId); }
      if !ok || step.durationMs == 0 || step.durationMs > MAX_STEP_DURATION_MS { return false; }
    }
    return true;
  }

  method ScheduleIsValid(schedule: ScheduleConfiguration, programs: seq<ProgramConfiguration>) returns (valid: bool)
    ensures valid <==> ValidSchedule(schedule, programs)
  {
    valid := TextIsValid(schedule.scheduleId);
    if valid { valid := TextIsValid(schedule.programId); }
    if valid { valid := ProgramExists(programs, schedule.programId); }
    // The bits above the seventh are set exactly when the mask is at least 2^7.
    if schedule.weekdayMask == 0 || schedule.weekdayMask >= 0x80 || schedule.hour >= 24 || schedule.minute >= 60 {
      return false;
    }
  }

  /** The nested loops accept exactly the valid configurations. */
  method Validate(c: IrrigationConfiguration, boardZones: seq<Zone>) returns (result: IrrigationResult)
    ensures result == (if Valid(c, boardZones) then Ok else Rejected)
  {
    if c.schemaVersion != SCHEMA_VERSION || |boardZones| > MAX_ZONES || |c.zones| != |boardZones| ||
       |c.programs| > MAX_PROGRAMS || |c.schedules| > MAX_SCHEDULES {
      return Rejected;
    }
    for index := 0 to |c.zones|
      invariant forall i | 0 <= i < index :: ValidZone(c.zones[i], boardZones)
      invariant forall i, j | 0 <= i < j < index :: c.zones[i].zoneId != c.zones[j].zoneId
    {
      var ok := ZoneIsValid(c.zones[index], boardZones);
      if !ok { return Rejected; }
      for previous := 0 to index
        invariant forall i | 0 <= i < previous :: c.zones[i].zoneId != c.zones[index].zoneId
      {
        if c.zones[previous].zoneId == c.zones[index].zoneId { return Rejected; }
      }
    }
    for index := 0 to |c.programs|
      invariant forall i | 0 <= i < index :: ValidProgram(c.programs[i], boardZones)
      invariant forall i, j | 0 <= i < j < index :: c.programs[i].programId != c.programs[j].programId
    {
      // The original looks at the steps after the duplicates; either failure rejects.
      var ok := ProgramIsValid(c.programs[index], boardZones);
      if !ok { return Rejected; }
      for previous := 0 to index
        invariant forall i | 0 <= i < previous :: c.programs[i].programId != c.programs[index].programId
      {
        if c.programs[previous].programId == c.programs[index].programId { return Rejected; }
      }
    }
    for index := 0 to |c.schedules|
      invariant forall i | 0 <= i < index :: ValidSchedule(c.schedules[i], c.programs)
      invariant forall i, j | 0 <= i < j < index :: c.schedules[i].scheduleId != c.schedules[j].scheduleId
    {
      var ok := ScheduleIsValid(c.schedules[index], c.programs);
      if !ok { return Rejected; }
      for previous := 0 to index
        invariant forall i | 0 <= i < previous :: c.schedules[i].scheduleId != c.schedules[index].scheduleId
      {
        if c.schedules[previous].scheduleId == c.schedules[index].scheduleId { return Rejected; }
      }
    }
    return Ok;
  }

  // ----- The configured zones are exactly the board's zones -----

  function ConfiguredIds(zones: seq<ZoneConfiguration>): set<Text> {
    set i | 0 <= i < |zones| :: zones[i].zoneId
  }

  function BoardIds(boardZones: seq<Zone>): set<Text> {
    set i | 0 <= i < |boardZones| :: boardZones[i].id
  }

  lemma {:induction false} DistinctCount(zones: seq<ZoneConfiguration>)
    requires DistinctZones(zones)
    ensures |ConfiguredIds(zones)| == |zones|
  {
    if zones == [] {
      assert ConfiguredIds(zones) == {};
    } else {
      var init := zones[..|zones| - 1];
      var last := zones[|zones| - 1].zoneId;
      DistinctCount(init);
      assert ConfiguredIds(zones) == ConfiguredIds(init) + {last};
      assert last !in ConfiguredIds(init);
    }
  }

  lemma {:induction false} BoardCount(boardZones: seq<Zone>)
    ensures |BoardIds(boardZones)| <= |boardZones|
  {
    if boardZones == [] {
      assert BoardIds(boardZones) == {};
    } else {
      var init := boardZones[..|boardZones| - 1];
      BoardCount(init);
      assert BoardIds(boardZones) == BoardIds(init) + {boardZones[|boardZones| - 1].id};
    }
  }

  lemma SubsetOfSameSize<T>(a: set<T>, b: set<T>)
    requires a <= b && |b| <= |a|
    ensures a == b
  {
    assert |b - a| == |b| - |a|;
  }

  /** Validation compares each configured zone with the board only one way; by pigeonhole the sets agree. */
  lemma ValidatedZonesAreTheBoard(c: IrrigationConfiguration, boardZones: seq<Zone>)
    requires Valid(c, boardZones)
    ensures ConfiguredIds(c.zones) == BoardIds(boardZones)
    ensures |BoardIds(boardZones)| == |boardZones|
  {
    DistinctCount(c.zones);
    BoardCount(boardZones);
    forall id | id in ConfiguredIds(c.zones) ensures id in BoardIds(boardZones) {
      var i :| 0 <= i < |c.zones| && c.zones[i].zoneId == id;
      assert ValidZone(c.zones[i], boardZones);
    }
    SubsetOfSameSize(ConfiguredIds(c.zones), BoardIds(boardZones));
  }
}
