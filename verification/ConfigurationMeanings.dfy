/** What a valid configuration is, in terms of its characters, numbers and names alone. */
module ConfigurationMeanings {
  import opened Bytes
  import opened Common
  import opened Texts
  import opened Configuration
  import opened SlotTables

  // ----- Texts and steps -----

  /** What is kept of a text: all of it, or its first 31 characters. */
  predicate IsCut(kept: Text, text: Text) {
    if |text| <= 31 then kept == text else |kept| == 31 && kept == text[..31]
  }

  /** A letter, a digit, or one of space, '-' and '_'. */
  predicate Plain(c: byte) {
    || c in Ascii("ABCDEFGHIJKLMNOPQRSTUVWXYZ") || c in Ascii("abcdefghijklmnopqrstuvwxyz")
    || c in Ascii("0123456789") || c in Ascii(" -_")
  }

  /** A name is not empty, and what is kept of it is plain. */
  predicate NameFits(name: Text) {
    name != [] && forall i | 0 <= i < |name| && i < 31 :: Plain(name[i])
  }

  predicate IsZoneOf(zones: seq<ZoneConfiguration>, id: Text) {
    exists k :: 0 <= k < |zones| && zones[k].zoneId == id
  }

  predicate OnBoard(boardZones: seq<Zone>, id: Text) {
    exists k :: 0 <= k < |boardZones| && boardZones[k].id == id
  }

  /** Steps water configured zones for between a millisecond and an hour. */
  predicate StepsFit(c: IrrigationConfiguration, steps: seq<StepConfiguration>) {
    forall i | 0 <= i < |steps| ::
      1 <= steps[i].durationMs <= 3_600_000 && IsZoneOf(c.zones, steps[i].zoneId)
  }

  // ----- The same as the validation -----

  lemma CopyIsCut(kept: Text, text: Text)
    ensures IsCut(kept, text) <==> kept == CopyText(text)
  {
  }

  /** Membership in a list of consecutive characters. */
  lemma InRange(c: byte, s: string, first: char)
    requires '\0' < first && first as int + |s| <= 128 && forall i | 0 <= i < |s| :: s[i] as int == first as int + i
    ensures c in Ascii(s) <==> first as int <= c < first as int + |s|
  {
    var text := Ascii(s);
    assert forall i | 0 <= i < |s| :: text[i] == Code(s[i]) == first as int + i;
    if first as int <= c < first as int + |s| {
      assert text[c - first as int] == c;
    }
  }

  lemma Upper(i: nat)
    requires i < 26
    ensures "ABCDEFGHIJKLMNOPQRSTUVWXYZ"[i] as int == 'A' as int + i
  {
  }

  lemma Lower(i: nat)
    requires i < 26
    ensures "abcdefghijklmnopqrstuvwxyz"[i] as int == 'a' as int + i
  {
  }

  lemma PlainIsAllowed(c: byte)
    ensures Plain(c) <==> IsAllowed(c)
  {
    hide Ascii;
    var upper, lower, digits := "ABCDEFGHIJKLMNOPQRSTUVWXYZ", "abcdefghijklmnopqrstuvwxyz", "0123456789";
    forall i | 0 <= i < |upper| ensures upper[i] as int == 'A' as int + i { Upper(i); }
    forall i | 0 <= i < |lower| ensures lower[i] as int == 'a' as int + i { Lower(i); }
    InRange(c, upper, 'A');
    InRange(c, lower, 'a');
    InRange(c, digits, '0');
    var rest := Ascii(" -_");
    assert rest == [' ' as int, '-' as int, '_' as int];
  }

  lemma NameIsValid(name: Text)
    ensures ValidText(CopyText(name)) <==> NameFits(name)
  {
    hide Plain, IsAllowed;
    var kept := CopyText(name);
    forall i | 0 <= i < |name| ensures Plain(name[i]) <==> IsAllowed(name[i]) { PlainIsAllowed(name[i]); }
    assert forall i | 0 <= i < |kept| :: kept[i] == name[i];
    if ValidText(kept) {
      forall i | 0 <= i < |name| && i < 31 ensures Plain(name[i]) { assert kept[i] in kept; }
    }
  }

  lemma BoardZoneIsConfigured(c: IrrigationConfiguration, id: Text, boardZones: seq<Zone>)
    requires Valid(c, boardZones)
    ensures ValidText(id) && HasZone(boardZones, id) <==> IsZoneOf(c.zones, id)
  {
    ValidatedZonesAreTheBoard(c, boardZones);
    if HasZone(boardZones, id) {
      assert id in BoardIds(boardZones);
      assert id in ConfiguredIds(c.zones);
    }
    if k :| 0 <= k < |c.zones| && c.zones[k].zoneId == id {
      assert ValidZone(c.zones[k], boardZones);
    }
  }

  lemma StepsAreValid(c: IrrigationConfiguration, steps: seq<StepConfiguration>, boardZones: seq<Zone>)
    requires Valid(c, boardZones)
    ensures (forall i | 0 <= i < |steps| :: ValidStep(steps[i], boardZones)) <==> StepsFit(c, steps)
  {
    hide Valid, ValidText, HasZone;
    forall i | 0 <= i < |steps|
      ensures ValidStep(steps[i], boardZones) <==>
        1 <= steps[i].durationMs <= 3_600_000 && IsZoneOf(c.zones, steps[i].zoneId)
    {
      BoardZoneIsConfigured(c, steps[i].zoneId, boardZones);
    }
  }

  // ----- Validity itself -----

  /** One to 31 plain characters. */
  predicate PlainText(text: Text) {
    1 <= |text| <= 31 && forall i | 0 <= i < |text| :: Plain(text[i])
  }

  lemma PlainTextIsValid(text: Text)
    ensures PlainText(text) <==> ValidText(text)
  {
    hide Plain, IsAllowed;
    forall i | 0 <= i < |text| ensures Plain(text[i]) <==> IsAllowed(text[i]) && text[i] in text { PlainIsAllowed(text[i]); }
  }

  predicate ZonesFit(c: IrrigationConfiguration, boardZones: seq<Zone>) {
    && |c.zones| == |boardZones| <= 8
    && (forall i | 0 <= i < |c.zones| :: PlainText(c.zones[i].zoneId) && PlainText(c.zones[i].displayName))
    && (forall i | 0 <= i < |c.zones| :: OnBoard(boardZones, c.zones[i].zoneId))
    && (forall i, j | 0 <= i < j < |c.zones| :: c.zones[i].zoneId != c.zones[j].zoneId)
  }

  predicate ProgramsFit(c: IrrigationConfiguration) {
    && |c.programs| <= 4
    && (forall i | 0 <= i < |c.programs| :: PlainText(c.programs[i].programId) && PlainText(c.programs[i].displayName))
    && (forall i | 0 <= i < |c.programs| :: |c.programs[i].steps| <= 8 && StepsFit(c, c.programs[i].steps))
    && (forall i, j | 0 <= i < j < |c.programs| :: c.programs[i].programId != c.programs[j].programId)
  }

  predicate SchedulesFit(c: IrrigationConfiguration) {
    && |c.schedules| <= 16
    && (forall i | 0 <= i < |c.schedules| ::
          var s := c.schedules[i];
          && PlainText(s.scheduleId) && 1 <= s.weekdayMask <= 127 && s.hour <= 23 && s.minute <= 59
          && exists k :: 0 <= k < |c.programs| && c.programs[k].programId == s.programId)
    && (forall i, j | 0 <= i < j < |c.schedules| :: c.schedules[i].scheduleId != c.schedules[j].scheduleId)
  }

  lemma OnBoardIs(boardZones: seq<Zone>, id: Text)
    ensures OnBoard(boardZones, id) <==> HasZone(boardZones, id)
  {
  }

  lemma ZonesFitExactly(c: IrrigationConfiguration, boardZones: seq<Zone>)
    ensures ZonesFit(c, boardZones) <==>
      && |c.zones| == |boardZones| <= MAX_ZONES && DistinctZones(c.zones)
      && forall i | 0 <= i < |c.zones| :: ValidZone(c.zones[i], boardZones)
  {
    hide PlainText, ValidText, OnBoard, HasZone;
    forall i | 0 <= i < |c.zones|
      ensures PlainText(c.zones[i].zoneId) <==> ValidText(c.zones[i].zoneId)
      ensures PlainText(c.zones[i].displayName) <==> ValidText(c.zones[i].displayName)
    {
      PlainTextIsValid(c.zones[i].zoneId);
      PlainTextIsValid(c.zones[i].displayName);
    }
    forall i | 0 <= i < |c.zones| ensures OnBoard(boardZones, c.zones[i].zoneId) <==> HasZone(boardZones, c.zones[i].zoneId) {
      OnBoardIs(boardZones, c.zones[i].zoneId);
    }
  }

  /** The zones alone, which are valid whenever they fit. */
  function OnlyZones(c: IrrigationConfiguration): IrrigationConfiguration {
    IrrigationConfiguration(SCHEMA_VERSION, c.zones, [], [], 0, 0)
  }

  lemma ProgramsFitExactly(c: IrrigationConfiguration, boardZones: seq<Zone>)
    requires ZonesFit(c, boardZones)
    ensures ProgramsFit(c) <==>
      && |c.programs| <= MAX_PROGRAMS && DistinctPrograms(c.programs)
      && forall i | 0 <= i < |c.programs| :: ValidProgram(c.programs[i], boardZones)
  {
    hide PlainText, ValidText, ZonesFit, StepsFit, ValidStep, ValidZone, HasZone;
    ZonesFitExactly(c, boardZones);
    forall i | 0 <= i < |c.programs|
      ensures PlainText(c.programs[i].programId) <==> ValidText(c.programs[i].programId)
      ensures PlainText(c.programs[i].displayName) <==> ValidText(c.programs[i].displayName)
      ensures StepsFit(c, c.programs[i].steps) <==>
        forall j | 0 <= j < |c.programs[i].steps| :: ValidStep(c.programs[i].steps[j], boardZones)
    {
      PlainTextIsValid(c.programs[i].programId);
      PlainTextIsValid(c.programs[i].displayName);
      StepsAreValid(OnlyZones(c), c.programs[i].steps, boardZones);
      assert StepsFit(OnlyZones(c), c.programs[i].steps) <==> StepsFit(c, c.programs[i].steps) by { SameZones(OnlyZones(c), c, c.programs[i].steps); }
    }
  }

  lemma SameZones(c: IrrigationConfiguration, d: IrrigationConfiguration, steps: seq<StepConfiguration>)
    requires c.zones == d.zones
    ensures StepsFit(c, steps) <==> StepsFit(d, steps)
  {
  }

  lemma SchedulesFitExactly(c: IrrigationConfiguration)
    requires forall k | 0 <= k < |c.programs| :: ValidText(c.programs[k].programId)
    ensures SchedulesFit(c) <==>
      && |c.schedules| <= MAX_SCHEDULES && DistinctSchedules(c.schedules)
      && forall i | 0 <= i < |c.schedules| :: ValidSchedule(c.schedules[i], c.programs)
  {
    hide PlainText, ValidText;
    forall i | 0 <= i < |c.schedules|
      ensures PlainText(c.schedules[i].scheduleId) <==> ValidText(c.schedules[i].scheduleId)
    {
      PlainTextIsValid(c.schedules[i].scheduleId);
    }
  }

  /** A configuration is valid exactly when its version is 1 and its zones, programs and schedules fit the board and each other. */
  lemma ValidMeans(c: IrrigationConfiguration, boardZones: seq<Zone>)
    ensures Valid(c, boardZones) <==> c.schemaVersion == 1 && ZonesFit(c, boardZones) && ProgramsFit(c) && SchedulesFit(c)
  {
    hide ZonesFit, ProgramsFit, SchedulesFit, ValidZone, ValidProgram, ValidSchedule;
    ZonesFitExactly(c, boardZones);
    if ZonesFit(c, boardZones) {
      ProgramsFitExactly(c, boardZones);
      if ProgramsFit(c) {
        ProgramTexts(c, boardZones);
        SchedulesFitExactly(c);
      }
    }
  }

  lemma ProgramTexts(c: IrrigationConfiguration, boardZones: seq<Zone>)
    requires forall i | 0 <= i < |c.programs| :: ValidProgram(c.programs[i], boardZones)
    ensures forall k | 0 <= k < |c.programs| :: ValidText(c.programs[k].programId)
  {
  }
}
