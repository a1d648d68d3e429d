/** Round trip, size bound and error detection of the stored format. */
module CodecTheorems {
  import opened Bytes
  import opened Common
  import opened Configuration
  import opened Codec
  import Crc32

  // ----- Reading back what was written -----

  /** `get` reads back `item` wherever its bytes stand. */
  ghost predicate ReadsBack<T(!new)>(encode: T -> seq<byte>, get: (seq<byte>, nat) -> Parsed<T>, item: T) {
    forall data: seq<byte>, at: nat ::
      Holds(data, at, encode(item)) ==> get(data, at) == Parsed(item, at + |encode(item)|)
  }

  lemma {:induction false} GetAllReadsBack<T(!new)>(
    items: seq<T>, encode: T -> seq<byte>, get: (seq<byte>, nat) -> Parsed<T>, data: seq<byte>, at: nat)
    requires forall i | 0 <= i < |items| :: ReadsBack(encode, get, items[i])
    requires Holds(data, at, EncodeAll(items, encode))
    ensures GetAll(data, at, |items|, get) == Parsed(items, at + |EncodeAll(items, encode)|)
  {
    hide Holds;
    if items != [] {
      var init, last := items[..|items| - 1], items[|items| - 1];
      HoldsSplit(data, at, EncodeAll(init, encode), encode(last));
      GetAllReadsBack(init, encode, get, data, at);
      assert ReadsBack(encode, get, last);
      assert items == init + [last];
    }
  }

  lemma {:induction false} CStringOfText(text: Text)
    ensures CString(text) == text
  {
    if text != [] {
      assert text[0] in text;
      assert forall c | c in text[1..] :: c in text;
      CStringOfText(text[1..]);
    }
  }

  lemma GetTextReadsBack(text: Text, data: seq<byte>, at: nat)
    requires Encodable(text) && Holds(data, at, EncodeText(text))
    ensures GetText(data, at) == Parsed(text, at + |EncodeText(text)|)
  {
    HoldsAt(data, at, EncodeText(text), 0);
    HoldsSplit(data, at, [|text|], text);
    CStringOfText(text);
  }

  lemma ZoneReadsBack(zone: ZoneConfiguration)
    requires EncodableZone(zone)
    ensures ReadsBack(EncodeZone, GetZone, zone)
  {
    forall data: seq<byte>, at: nat | Holds(data, at, EncodeZone(zone))
      ensures GetZone(data, at) == Parsed(zone, at + |EncodeZone(zone)|)
    {
      HoldsSplit(data, at, EncodeText(zone.zoneId), EncodeText(zone.displayName));
      GetTextReadsBack(zone.zoneId, data, at);
      GetTextReadsBack(zone.displayName, data, at + |EncodeText(zone.zoneId)|);
    }
  }

  lemma StepReadsBack(step: StepConfiguration)
    requires EncodableStep(step)
    ensures ReadsBack(EncodeStep, GetStep, step)
  {
    forall data: seq<byte>, at: nat | Holds(data, at, EncodeStep(step))
      ensures GetStep(data, at) == Parsed(step, at + |EncodeStep(step)|)
    {
      HoldsSplit(data, at, EncodeText(step.zoneId), PutU32(step.durationMs));
      GetTextReadsBack(step.zoneId, data, at);
      PutGetU32(data, at + |EncodeText(step.zoneId)|, step.durationMs);
    }
  }

  lemma StepsReadBack(steps: seq<StepConfiguration>, data: seq<byte>, at: nat)
    requires forall i | 0 <= i < |steps| :: EncodableStep(steps[i])
    requires Holds(data, at, EncodeAll(steps, EncodeStep))
    ensures GetAll(data, at, |steps|, GetStep) == Parsed(steps, at + |EncodeAll(steps, EncodeStep)|)
  {
    forall i | 0 <= i < |steps| ensures ReadsBack(EncodeStep, GetStep, steps[i]) {
      StepReadsBack(steps[i]);
    }
    GetAllReadsBack(steps, EncodeStep, GetStep, data, at);
  }

  lemma ProgramReadsBackAt(program: ProgramConfiguration, data: seq<byte>, at: nat)
    requires EncodableProgram(program) && |program.steps| <= MAX_PROGRAM_STEPS
    requires Holds(data, at, EncodeProgram(program))
    ensures GetProgram(data, at) == Parsed(program, at + |EncodeProgram(program)|)
  {
    hide EncodeAll, GetText, GetAll;
    var id, name := EncodeText(program.programId), EncodeText(program.displayName);
    var count: seq<byte> := [|program.steps|];
    var steps := EncodeAll(program.steps, EncodeStep);
    HoldsFour(data, at, id, name, count, steps);
    GetTextReadsBack(program.programId, data, at);
    GetTextReadsBack(program.displayName, data, at + |id|);
    HoldsAt(data, at + |id| + |name|, count, 0);
    StepsReadBack(program.steps, data, at + |id| + |name| + 1);
  }

  lemma ProgramReadsBack(program: ProgramConfiguration)
    requires EncodableProgram(program) && |program.steps| <= MAX_PROGRAM_STEPS
    ensures ReadsBack(EncodeProgram, GetProgram, program)
  {
    forall data: seq<byte>, at: nat | Holds(data, at, EncodeProgram(program))
      ensures GetProgram(data, at) == Parsed(program, at + |EncodeProgram(program)|)
    {
      ProgramReadsBackAt(program, data, at);
    }
  }

  lemma ScheduleReadsBackAt(schedule: ScheduleConfiguration, data: seq<byte>, at: nat)
    requires EncodableSchedule(schedule)
    requires Holds(data, at, EncodeSchedule(schedule))
    ensures GetSchedule(data, at) == Parsed(schedule, at + |EncodeSchedule(schedule)|)
  {
    hide EncodeText, GetText, Holds;
    var id, program := EncodeText(schedule.scheduleId), EncodeText(schedule.programId);
    var fields: seq<byte> := [if schedule.enabled then 1 else 0, schedule.weekdayMask, schedule.hour, schedule.minute];
    HoldsSplit(data, at, id + fields, program);
    HoldsSplit(data, at, id, fields);
    GetTextReadsBack(schedule.scheduleId, data, at);
    HoldsAt(data, at + |id|, fields, 0);
    HoldsAt(data, at + |id|, fields, 1);
    HoldsAt(data, at + |id|, fields, 2);
    HoldsAt(data, at + |id|, fields, 3);
    GetTextReadsBack(schedule.programId, data, at + |id + fields|);
  }

  lemma ScheduleReadsBack(schedule: ScheduleConfiguration)
    requires EncodableSchedule(schedule)
    ensures ReadsBack(EncodeSchedule, GetSchedule, schedule)
  {
    forall data: seq<byte>, at: nat | Holds(data, at, EncodeSchedule(schedule))
      ensures GetSchedule(data, at) == Parsed(schedule, at + |EncodeSchedule(schedule)|)
    {
      ScheduleReadsBackAt(schedule, data, at);
    }
  }

  // ----- Sizes -----

  lemma {:induction false} EncodeAllBound<T>(items: seq<T>, encode: T -> seq<byte>, bound: nat)
    requires forall i | 0 <= i < |items| :: |encode(items[i])| <= bound
    ensures |EncodeAll(items, encode)| <= |items| * bound
  {
    if items != [] {
      EncodeAllBound(items[..|items| - 1], encode, bound);
    }
  }

  lemma ProgramBound(program: ProgramConfiguration)
    requires EncodableProgram(program) && |program.steps| <= MAX_PROGRAM_STEPS
    ensures |EncodeProgram(program)| <= 2 * TEXT_SIZE + 1 + MAX_PROGRAM_STEPS * (TEXT_SIZE + 4)
  {
    EncodeAllBound(program.steps, EncodeStep, TEXT_SIZE + 4);
  }

  lemma ZonesBound(zones: seq<ZoneConfiguration>)
    requires |zones| <= MAX_ZONES && forall i | 0 <= i < |zones| :: EncodableZone(zones[i])
    ensures |EncodeAll(zones, EncodeZone)| <= MAX_ZONES * (2 * TEXT_SIZE)
  {
    EncodeAllBound(zones, EncodeZone, 2 * TEXT_SIZE);
  }

  lemma ProgramsBound(programs: seq<ProgramConfiguration>)
    requires |programs| <= MAX_PROGRAMS
    requires forall i | 0 <= i < |programs| :: EncodableProgram(programs[i]) && |programs[i].steps| <= MAX_PROGRAM_STEPS
    ensures |EncodeAll(programs, EncodeProgram)| <=
            MAX_PROGRAMS * (2 * TEXT_SIZE + 1 + MAX_PROGRAM_STEPS * (TEXT_SIZE + 4))
  {
    forall i | 0 <= i < |programs|
      ensures |EncodeProgram(programs[i])| <= 2 * TEXT_SIZE + 1 + MAX_PROGRAM_STEPS * (TEXT_SIZE + 4)
    {
      ProgramBound(programs[i]);
    }
    EncodeAllBound(programs, EncodeProgram, 2 * TEXT_SIZE + 1 + MAX_PROGRAM_STEPS * (TEXT_SIZE + 4));
  }

  lemma SchedulesBound(schedules: seq<ScheduleConfiguration>)
    requires |schedules| <= MAX_SCHEDULES && forall i | 0 <= i < |schedules| :: EncodableSchedule(schedules[i])
    ensures |EncodeAll(schedules, EncodeSchedule)| <= MAX_SCHEDULES * (2 * TEXT_SIZE + 4)
  {
    EncodeAllBound(schedules, EncodeSchedule, 2 * TEXT_SIZE + 4);
  }

  /** A configuration that encodes never needs more than the closed-form maximum. */
  lemma PayloadBound(c: IrrigationConfiguration)
    requires EncodeResult(c) == RepositoryOk && StepsFit(c)
    ensures 13 <= |EncodePayload(c)| <= MAX_PAYLOAD_SIZE == 3025
  {
    ZonesBound(c.zones);
    ProgramsBound(c.programs);
    SchedulesBound(c.schedules);
    assert |EncodeCounts(c)| == 13;
  }

  lemma ValidIsEncodable(c: IrrigationConfiguration, boardZones: seq<Zone>)
    requires Valid(c, boardZones)
    ensures EncodeResult(c) == RepositoryOk && StepsFit(c)
  {
    forall i | 0 <= i < |c.zones| ensures EncodableZone(c.zones[i]) {
      assert ValidZone(c.zones[i], boardZones);
    }
    forall i | 0 <= i < |c.programs| ensures EncodableProgram(c.programs[i]) && |c.programs[i].steps| <= MAX_PROGRAM_STEPS {
      assert ValidProgram(c.programs[i], boardZones);
      assert forall j | 0 <= j < |c.programs[i].steps| :: ValidStep(c.programs[i].steps[j], boardZones);
    }
    forall i | 0 <= i < |c.schedules| ensures EncodableSchedule(c.schedules[i]) {
      assert ValidSchedule(c.schedules[i], c.programs);
    }
  }

  // ----- The round trip -----

  lemma HeaderReadsBack(data: seq<byte>, generation: u32, payload: seq<byte>)
    requires |payload| < 0x1_0000 && Holds(data, 0, EncodeHeader(generation, payload))
    ensures GetU32(data, 0) == MAGIC && GetU16(data, 4) == SCHEMA_VERSION
    ensures GetU32(data, 6) == generation && GetU16(data, 10) == |payload|
    ensures GetU32(data, 12) == Crc32.ToU32(Crc32.Crc(payload))
  {
    hide PutU32, PutU16, GetU16, GetU32, Crc32.Crc, Crc32.ToU32;
    var crc := Crc32.ToU32(Crc32.Crc(payload));
    var m, s, g, n, k := PutU32(MAGIC), PutU16(SCHEMA_VERSION), PutU32(generation), PutU16(|payload|), PutU32(crc);
    HoldsSplit(data, 0, m + s + g + n, k);
    HoldsFour(data, 0, m, s, g, n);
    PutGetU32(data, 0, MAGIC);
    PutGetU16(data, 4, SCHEMA_VERSION);
    PutGetU32(data, 6, generation);
    PutGetU16(data, 10, |payload|);
    PutGetU32(data, 12, crc);
  }

  lemma CountsReadBack(c: IrrigationConfiguration, data: seq<byte>, at: nat)
    requires CountsFit(c) && Holds(data, at, EncodeCounts(c))
    ensures at + 13 <= |data|
    ensures GetU16(data, at) == c.schemaVersion
    ensures data[at + 2] == |c.zones| && data[at + 3] == |c.programs| && data[at + 4] == |c.schedules|
    ensures GetU32(data, at + 5) == c.nextProgramId && GetU32(data, at + 9) == c.nextScheduleId
  {
    hide PutU32, PutU16, GetU16, GetU32;
    var schema, nextProgram, nextSchedule := PutU16(c.schemaVersion), PutU32(c.nextProgramId), PutU32(c.nextScheduleId);
    var counts: seq<byte> := [|c.zones|, |c.programs|, |c.schedules|];
    HoldsFour(data, at, schema, counts, nextProgram, nextSchedule);
    PutGetU16(data, at, c.schemaVersion);
    HoldsAt(data, at + 2, counts, 0);
    HoldsAt(data, at + 2, counts, 1);
    HoldsAt(data, at + 2, counts, 2);
    PutGetU32(data, at + 5, c.nextProgramId);
    PutGetU32(data, at + 9, c.nextScheduleId);
  }

  lemma ZonesReadBack(zones: seq<ZoneConfiguration>, data: seq<byte>, at: nat)
    requires forall i | 0 <= i < |zones| :: EncodableZone(zones[i])
    requires Holds(data, at, EncodeAll(zones, EncodeZone))
    ensures GetAll(data, at, |zones|, GetZone) == Parsed(zones, at + |EncodeAll(zones, EncodeZone)|)
  {
    forall i | 0 <= i < |zones| ensures ReadsBack(EncodeZone, GetZone, zones[i]) {
      ZoneReadsBack(zones[i]);
    }
    GetAllReadsBack(zones, EncodeZone, GetZone, data, at);
  }

  lemma ProgramsReadBack(programs: seq<ProgramConfiguration>, data: seq<byte>, at: nat)
    requires forall i | 0 <= i < |programs| :: EncodableProgram(programs[i]) && |programs[i].steps| <= MAX_PROGRAM_STEPS
    requires Holds(data, at, EncodeAll(programs, EncodeProgram))
    ensures GetAll(data, at, |programs|, GetProgram) == Parsed(programs, at + |EncodeAll(programs, EncodeProgram)|)
  {
    forall i | 0 <= i < |programs| ensures ReadsBack(EncodeProgram, GetProgram, programs[i]) {
      ProgramReadsBack(programs[i]);
    }
    GetAllReadsBack(programs, EncodeProgram, GetProgram, data, at);
  }

  lemma SchedulesReadBack(schedules: seq<ScheduleConfiguration>, data: seq<byte>, at: nat)
    requires forall i | 0 <= i < |schedules| :: EncodableSchedule(schedules[i])
    requires Holds(data, at, EncodeAll(schedules, EncodeSchedule))
    ensures GetAll(data, at, |schedules|, GetSchedule) == Parsed(schedules, at + |EncodeAll(schedules, EncodeSchedule)|)
  {
    forall i | 0 <= i < |schedules| ensures ReadsBack(EncodeSchedule, GetSchedule, schedules[i]) {
      ScheduleReadsBack(schedules[i]);
    }
    GetAllReadsBack(schedules, EncodeSchedule, GetSchedule, data, at);
  }

  lemma PayloadReadsBack(c: IrrigationConfiguration, data: seq<byte>, boardZones: seq<Zone>)
    requires Valid(c, boardZones) && EncodeResult(c) == RepositoryOk && StepsFit(c)
    requires |data| == HEADER_SIZE + |EncodePayload(c)| && Holds(data, HEADER_SIZE, EncodePayload(c))
    ensures DecodePayload(data, boardZones) == Decoded(RepositoryOk, c)
  {
    hide EncodeCounts, EncodeAll, GetAll, GetU16, GetU32, Holds;
    var counts, zones, programs, schedules :=
      EncodeCounts(c), EncodeAll(c.zones, EncodeZone), EncodeAll(c.programs, EncodeProgram), EncodeAll(c.schedules, EncodeSchedule);
    HoldsFour(data, HEADER_SIZE, counts, zones, programs, schedules);
    CountsReadBack(c, data, HEADER_SIZE);
    ZonesReadBack(c.zones, data, HEADER_SIZE + 13);
    ProgramsReadBack(c.programs, data, HEADER_SIZE + 13 + |zones|);
    SchedulesReadBack(c.schedules, data, HEADER_SIZE + 13 + |zones| + |programs|);
  }

  /** Decoding the encoding of a valid configuration gives back the same configuration and generation. */
  lemma RoundTrip(c: IrrigationConfiguration, generation: u32, boardZones: seq<Zone>)
    requires Valid(c, boardZones)
    ensures EncodeResult(c) == RepositoryOk
    ensures Decode(Blob(c, generation), boardZones) == Decoded(RepositoryOk, c)
    ensures forall before :: HeaderGeneration(Blob(c, generation), before) == generation
    ensures |Blob(c, generation)| <= MAX_BLOB_SIZE
  {
    hide EncodePayload, EncodeHeader, DecodePayload, GetU16, GetU32, Valid, Crc32.Crc, Crc32.ToU32;
    ValidIsEncodable(c, boardZones);
    PayloadBound(c);
    var data, header, payload := Blob(c, generation), EncodeHeader(generation, EncodePayload(c)), EncodePayload(c);
    assert |header| == HEADER_SIZE;
    assert Holds(data, 0, header + payload);
    HoldsSplit(data, 0, header, payload);
    assert data[HEADER_SIZE..] == payload;
    HeaderReadsBack(data, generation, payload);
    PayloadReadsBack(c, data, boardZones);
  }

  /** Whatever bytes decode, encoding the result and decoding it again changes nothing. */
  lemma DecodeIsStable(data: seq<byte>, generation: u32, boardZones: seq<Zone>)
    requires Decode(data, boardZones).result == RepositoryOk
    ensures var c := Decode(data, boardZones).configuration;
            && Valid(c, boardZones)
            && EncodeResult(c) == RepositoryOk
            && Decode(Blob(c, generation), boardZones) == Decode(data, boardZones)
  {
    hide Blob, Valid;
    RoundTrip(Decode(data, boardZones).configuration, generation, boardZones);
  }

  // ----- Damage -----

  /**
   A blob that got past the checksum, changed in any way inside four consecutive payload bytes, is refused as
   corrupt.
   */
  lemma BurstIsCorrupt(data: seq<byte>, damaged: seq<byte>, at: nat, boardZones: seq<Zone>)
    requires Decode(data, boardZones).result == RepositoryOk
    requires |damaged| == |data| && damaged[..HEADER_SIZE] == data[..HEADER_SIZE]
    requires Crc32.WithinBurst(data[HEADER_SIZE..], damaged[HEADER_SIZE..], at)
    ensures Decode(damaged, boardZones) == (if damaged == data then Decode(data, boardZones) else Refuse(Corrupt))
    ensures forall before :: HeaderGeneration(damaged, before) == HeaderGeneration(data, before)
  {
    hide DecodePayload, GetU16, GetU32, Crc32.Crc;
    SameHeader(data, damaged);
    var left, right := data[HEADER_SIZE..], damaged[HEADER_SIZE..];
    Crc32.BurstDetected(left, right, at);
    if Crc32.ToU32(Crc32.Crc(left)) == Crc32.ToU32(Crc32.Crc(right)) {
      Crc32.ValueInjective(Crc32.Crc(left), Crc32.Crc(right));
      assert data == data[..HEADER_SIZE] + left && damaged == damaged[..HEADER_SIZE] + right;
    }
  }

  lemma SameHeader(data: seq<byte>, damaged: seq<byte>)
    requires |damaged| == |data| >= HEADER_SIZE && damaged[..HEADER_SIZE] == data[..HEADER_SIZE]
    ensures GetU32(data, 0) == GetU32(damaged, 0) && GetU16(data, 4) == GetU16(damaged, 4)
    ensures GetU32(data, 6) == GetU32(damaged, 6) && GetU16(data, 10) == GetU16(damaged, 10)
    ensures GetU32(data, 12) == GetU32(damaged, 12)
  {
    hide Valid;
    forall i | 0 <= i < HEADER_SIZE ensures data[i] == damaged[i] {
      assert data[i] == data[..HEADER_SIZE][i] == damaged[..HEADER_SIZE][i];
    }
  }
}
