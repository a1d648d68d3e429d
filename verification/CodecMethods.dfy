/** The cursor loops that write and read a blob in place, proved against the format. */
module CodecMethods {
  import opened Bytes
  import opened Common
  import opened Configuration
  import opened Codec
  import Crc32

  // ----- Writing -----

  method WriteBytes(blob: array<byte>, cursor: nat, bytes: seq<byte>) returns (next: nat)
    requires cursor + |bytes| <= blob.Length
    modifies blob
    ensures next == cursor + |bytes|
    ensures blob[..next] == old(blob[..cursor]) + bytes
    ensures blob[next..] == old(blob[next..])
  {
    for index := 0 to |bytes|
      invariant blob[..cursor] == old(blob[..cursor])
      invariant blob[cursor..cursor + index] == bytes[..index]
      invariant blob[cursor + |bytes|..] == old(blob[cursor + |bytes|..])
    {
      blob[cursor + index] := bytes[index];
      assert blob[cursor..cursor + index + 1] == blob[cursor..cursor + index] + [bytes[index]];
    }
    next := cursor + |bytes|;
    assert blob[..next] == blob[..cursor] + blob[cursor..next];
  }

  method WriteText(blob: array<byte>, cursor: nat, text: Text) returns (ok: bool, next: nat)
    requires cursor + TEXT_SIZE <= blob.Length
    modifies blob
    ensures ok <==> Encodable(text)
    ensures cursor <= next <= cursor + TEXT_SIZE
    ensures ok ==> blob[..next] == old(blob[..cursor]) + EncodeText(text)
  {
    if |text| == 0 || |text| >= TEXT_SIZE { return false, cursor; }
    next := WriteBytes(blob, cursor, [|text|]);
    next := WriteBytes(blob, next, text);
    ok := true;
  }

  method WriteTexts(blob: array<byte>, cursor: nat, first: Text, second: Text) returns (ok: bool, next: nat)
    requires cursor + 2 * TEXT_SIZE <= blob.Length
    modifies blob
    ensures ok <==> Encodable(first) && Encodable(second)
    ensures cursor <= next <= cursor + 2 * TEXT_SIZE
    ensures ok ==> blob[..next] == old(blob[..cursor]) + (EncodeText(first) + EncodeText(second))
  {
    ok, next := WriteText(blob, cursor, first);
    if ok { ok, next := WriteText(blob, next, second); }
  }

  lemma EncodeAllNext<T>(items: seq<T>, encode: T -> seq<byte>, i: nat)
    requires i < |items|
    ensures EncodeAll(items[..i + 1], encode) == EncodeAll(items[..i], encode) + encode(items[i])
  {
    assert items[..i + 1][..i] == items[..i];
  }

  lemma EncodeAllNone<T>(items: seq<T>, encode: T -> seq<byte>)
    ensures EncodeAll(items[..0], encode) == []
  {
  }

  method WriteZones(blob: array<byte>, cursor: nat, zones: seq<ZoneConfiguration>) returns (ok: bool, next: nat)
    requires cursor + |zones| * (2 * TEXT_SIZE) <= blob.Length
    modifies blob
    ensures ok <==> forall i | 0 <= i < |zones| :: EncodableZone(zones[i])
    ensures cursor <= next <= cursor + |zones| * (2 * TEXT_SIZE)
    ensures ok ==> blob[..next] == old(blob[..cursor]) + EncodeAll(zones, EncodeZone)
  {
    hide EncodeAll, EncodeText, Encodable;
    EncodeAllNone(zones, EncodeZone);
    next := cursor;
    for index := 0 to |zones|
      invariant cursor <= next <= cursor + index * (2 * TEXT_SIZE)
      invariant forall i | 0 <= i < index :: EncodableZone(zones[i])
      invariant blob[..next] == old(blob[..cursor]) + EncodeAll(zones[..index], EncodeZone)
    {
      EncodeAllNext(zones, EncodeZone, index);
      ok, next := WriteTexts(blob, next, zones[index].zoneId, zones[index].displayName);
      if !ok { return false, next; }
    }
    assert zones[..|zones|] == zones;
    ok := true;
  }

  method WriteSteps(blob: array<byte>, cursor: nat, steps: seq<StepConfiguration>) returns (ok: bool, next: nat)
    requires cursor + |steps| * (TEXT_SIZE + 4) <= blob.Length
    modifies blob
    ensures ok <==> forall i | 0 <= i < |steps| :: EncodableStep(steps[i])
    ensures cursor <= next <= cursor + |steps| * (TEXT_SIZE + 4)
    ensures ok ==> blob[..next] == old(blob[..cursor]) + EncodeAll(steps, EncodeStep)
  {
    hide EncodeAll, EncodeText, PutU32, Encodable;
    EncodeAllNone(steps, EncodeStep);
    next := cursor;
    for index := 0 to |steps|
      invariant cursor <= next <= cursor + index * (TEXT_SIZE + 4)
      invariant forall i | 0 <= i < index :: EncodableStep(steps[i])
      invariant blob[..next] == old(blob[..cursor]) + EncodeAll(steps[..index], EncodeStep)
    {
      EncodeAllNext(steps, EncodeStep, index);
      ok, next := WriteText(blob, next, steps[index].zoneId);
      if !ok { return false, next; }
      next := WriteBytes(blob, next, PutU32(steps[index].durationMs));
    }
    assert steps[..|steps|] == steps;
    ok := true;
  }

  const PROGRAM_SIZE: nat := 2 * TEXT_SIZE + 1 + MAX_PROGRAM_STEPS * (TEXT_SIZE + 4)

  method WriteProgram(blob: array<byte>, cursor: nat, program: ProgramConfiguration) returns (ok: bool, next: nat)
    requires cursor + PROGRAM_SIZE <= blob.Length && |program.steps| <= MAX_PROGRAM_STEPS
    modifies blob
    ensures ok <==> EncodableProgram(program)
    ensures cursor <= next <= cursor + PROGRAM_SIZE
    ensures ok ==> blob[..next] == old(blob[..cursor]) + EncodeProgram(program)
  {
    hide EncodeText, EncodeAll;
    ok, next := WriteTexts(blob, cursor, program.programId, program.displayName);
    if !ok { return; }
    next := WriteBytes(blob, next, [|program.steps|]);
    ok, next := WriteSteps(blob, next, program.steps);
  }

  method WritePrograms(blob: array<byte>, cursor: nat, programs: seq<ProgramConfiguration>) returns (ok: bool, next: nat)
    requires cursor + |programs| * PROGRAM_SIZE <= blob.Length
    requires forall i | 0 <= i < |programs| :: |programs[i].steps| <= MAX_PROGRAM_STEPS
    modifies blob
    ensures ok <==> forall i | 0 <= i < |programs| :: EncodableProgram(programs[i])
    ensures cursor <= next <= cursor + |programs| * PROGRAM_SIZE
    ensures ok ==> blob[..next] == old(blob[..cursor]) + EncodeAll(programs, EncodeProgram)
  {
    hide EncodeAll, EncodeProgram, EncodableProgram;
    EncodeAllNone(programs, EncodeProgram);
    next := cursor;
    for index := 0 to |programs|
      invariant cursor <= next <= cursor + index * PROGRAM_SIZE
      invariant forall i | 0 <= i < index :: EncodableProgram(programs[i])
      invariant blob[..next] == old(blob[..cursor]) + EncodeAll(programs[..index], EncodeProgram)
    {
      EncodeAllNext(programs, EncodeProgram, index);
      ok, next := WriteProgram(blob, next, programs[index]);
      if !ok { return false, next; }
    }
    assert programs[..|programs|] == programs;
    ok := true;
  }

  const SCHEDULE_SIZE: nat := 2 * TEXT_SIZE + 4

  method WriteSchedule(blob: array<byte>, cursor: nat, schedule: ScheduleConfiguration) returns (ok: bool, next: nat)
    requires cursor + SCHEDULE_SIZE <= blob.Length
    modifies blob
    ensures ok <==> EncodableSchedule(schedule)
    ensures cursor <= next <= cursor + SCHEDULE_SIZE
    ensures ok ==> blob[..next] == old(blob[..cursor]) + EncodeSchedule(schedule)
  {
    hide EncodeText;
    ok, next := WriteText(blob, cursor, schedule.scheduleId);
    if !ok { return; }
    next := WriteBytes(blob, next, [if schedule.enabled then 1 else 0, schedule.weekdayMask, schedule.hour, schedule.minute]);
    ok, next := WriteText(blob, next, schedule.programId);
  }

  method WriteSchedules(blob: array<byte>, cursor: nat, schedules: seq<ScheduleConfiguration>) returns (ok: bool, next: nat)
    requires cursor + |schedules| * SCHEDULE_SIZE <= blob.Length
    modifies blob
    ensures ok <==> forall i | 0 <= i < |schedules| :: EncodableSchedule(schedules[i])
    ensures cursor <= next <= cursor + |schedules| * SCHEDULE_SIZE
    ensures ok ==> blob[..next] == old(blob[..cursor]) + EncodeAll(schedules, EncodeSchedule)
  {
    hide EncodeAll, EncodeSchedule, EncodableSchedule;
    EncodeAllNone(schedules, EncodeSchedule);
    next := cursor;
    for index := 0 to |schedules|
      invariant cursor <= next <= cursor + index * SCHEDULE_SIZE
      invariant forall i | 0 <= i < index :: EncodableSchedule(schedules[i])
      invariant blob[..next] == old(blob[..cursor]) + EncodeAll(schedules[..index], EncodeSchedule)
    {
      EncodeAllNext(schedules, EncodeSchedule, index);
      ok, next := WriteSchedule(blob, next, schedules[index]);
      if !ok { return false, next; }
    }
    assert schedules[..|schedules|] == schedules;
    ok := true;
  }

  /** The header goes in front of the payload that ends at `end`, checksum last. */
  method WriteHeader(blob: array<byte>, generation: u32, end: nat)
    requires HEADER_SIZE <= end <= blob.Length && end - HEADER_SIZE < 0x1_0000
    modifies blob
    ensures var payload := old(blob[HEADER_SIZE..end]);
            blob[..end] == EncodeHeader(generation, payload) + payload
  {
    hide PutU32, PutU16, Crc32.Crc, Crc32.ToU32;
    ghost var payload := blob[HEADER_SIZE..end];
    var length := end - HEADER_SIZE;
    var crc := Crc32.Compute(blob, HEADER_SIZE, length);
    ghost var after := blob[HEADER_SIZE..];
    var written := WriteBytes(
      blob, 0, PutU32(MAGIC) + PutU16(SCHEMA_VERSION) + PutU32(generation) + PutU16(length) + PutU32(Crc32.ToU32(crc)));
    assert blob[HEADER_SIZE..] == after;
    assert blob[HEADER_SIZE..end] == after[..length] == payload;
    assert blob[..end] == blob[..HEADER_SIZE] + blob[HEADER_SIZE..end];
  }

  method WritePayload(blob: array<byte>, c: IrrigationConfiguration) returns (ok: bool, end: nat)
    requires blob.Length >= MAX_BLOB_SIZE && CountsFit(c) && StepsFit(c)
    modifies blob
    ensures ok <==> TextsFit(c)
    ensures HEADER_SIZE + 13 <= end <= MAX_BLOB_SIZE
    ensures ok ==> blob[HEADER_SIZE..end] == EncodePayload(c)
  {
    hide EncodeAll, EncodeCounts, EncodableZone, EncodableProgram, EncodableSchedule, EncodeZone, EncodeProgram, EncodeSchedule;
    end := WriteBytes(blob, HEADER_SIZE, EncodeCounts(c));
    ghost var header := blob[..HEADER_SIZE];
    assert blob[..end] == header + EncodeCounts(c);
    ok, end := WriteZones(blob, end, c.zones);
    if !ok { return; }
    ok, end := WritePrograms(blob, end, c.programs);
    if !ok { return; }
    ok, end := WriteSchedules(blob, end, c.schedules);
    if !ok { return; }
    PayloadBehindHeader(header, c);
    assert blob[HEADER_SIZE..end] == blob[..end][HEADER_SIZE..];
  }

  lemma PayloadBehindHeader(header: seq<byte>, c: IrrigationConfiguration)
    ensures var written := header + EncodeCounts(c) + EncodeAll(c.zones, EncodeZone) + EncodeAll(c.programs, EncodeProgram) +
                           EncodeAll(c.schedules, EncodeSchedule);
            written == header + EncodePayload(c) && written[|header|..] == EncodePayload(c)
  {
    hide EncodeAll, EncodeCounts;
    assert (header + EncodePayload(c))[|header|..] == EncodePayload(c);
  }

  /** Encoding succeeds exactly on encodable configurations, and then the buffer starts with their blob. */
  method Encode(c: IrrigationConfiguration, generation: u32, blob: array<byte>)
    returns (result: RepositoryResult, length: nat)
    requires StepsFit(c)
    modifies blob
    ensures result == (if blob.Length < MAX_BLOB_SIZE then InvalidConfiguration else EncodeResult(c))
    ensures result == RepositoryOk ==> length <= blob.Length && blob[..length] == Blob(c, generation)
  {
    hide EncodePayload, EncodeHeader, StepsFit, TextsFit;
    if blob.Length < MAX_BLOB_SIZE || |c.zones| > MAX_ZONES || |c.programs| > MAX_PROGRAMS ||
       |c.schedules| > MAX_SCHEDULES {
      return InvalidConfiguration, 0;
    }
    if c.schemaVersion != SCHEMA_VERSION { return Incompatible, 0; }
    var ok, end := WritePayload(blob, c);
    if !ok { return InvalidConfiguration, 0; }
    WriteHeader(blob, generation, end);
    return RepositoryOk, end;
  }

  // ----- Reading: every index stays below `end` -----

  method ReadU16(blob: array<byte>, cursor: nat, end: nat) returns (value: u16)
    requires cursor + 2 <= end <= blob.Length
    ensures value == GetU16(blob[..end], cursor)
  {
    value := FromBytes2(blob[cursor], blob[cursor + 1]);
  }

  method ReadU32(blob: array<byte>, cursor: nat, end: nat) returns (value: u32)
    requires cursor + 4 <= end <= blob.Length
    ensures value == GetU32(blob[..end], cursor)
  {
    value := FromBytes4(blob[cursor], blob[cursor + 1], blob[cursor + 2], blob[cursor + 3]);
  }

  method ReadText(blob: array<byte>, cursor: nat, end: nat) returns (text: Parsed<Text>)
    requires end <= blob.Length
    ensures text == GetText(blob[..end], cursor)
  {
    if cursor >= end { return Bad; }
    var length := blob[cursor];
    if length == 0 || length >= TEXT_SIZE || end - (cursor + 1) < length { return Bad; }
    ghost var data := blob[..end];
    var raw := blob[cursor + 1..cursor + 1 + length];
    assert raw == data[cursor + 1..cursor + 1 + length];
    return Parsed(CString(raw), cursor + 1 + length);
  }

  lemma {:induction false} GetAllStaysBad<T>(data: seq<byte>, at: nat, fewer: nat, more: nat, get: (seq<byte>, nat) -> Parsed<T>)
    requires fewer <= more && GetAll(data, at, fewer, get).Bad?
    ensures GetAll(data, at, more, get).Bad?
  {
    if fewer < more {
      GetAllStaysBad(data, at, fewer, more - 1, get);
    }
  }

  method ReadZones(blob: array<byte>, cursor: nat, end: nat, count: nat) returns (zones: Parsed<seq<ZoneConfiguration>>)
    requires end <= blob.Length
    ensures zones == GetAll(blob[..end], cursor, count, GetZone)
  {
    hide GetText;
    var items: seq<ZoneConfiguration> := [];
    var next: nat := cursor;
    for index := 0 to count
      invariant GetAll(blob[..end], cursor, index, GetZone) == Parsed(items, next)
    {
      var zoneId := ReadText(blob, next, end);
      var name: Parsed<Text> := Bad;
      if zoneId.Parsed? { name := ReadText(blob, zoneId.next, end); }
      if zoneId.Bad? || name.Bad? {
        GetAllStaysBad(blob[..end], cursor, index + 1, count, GetZone);
        return Bad;
      }
      items, next := items + [ZoneConfiguration(zoneId.value, name.value)], name.next;
    }
    zones := Parsed(items, next);
  }

  method ReadSteps(blob: array<byte>, cursor: nat, end: nat, count: nat) returns (steps: Parsed<seq<StepConfiguration>>)
    requires end <= blob.Length
    ensures steps == GetAll(blob[..end], cursor, count, GetStep)
  {
    hide GetText, GetU32;
    var items: seq<StepConfiguration> := [];
    var next: nat := cursor;
    for index := 0 to count
      invariant GetAll(blob[..end], cursor, index, GetStep) == Parsed(items, next)
    {
      var zoneId := ReadText(blob, next, end);
      if zoneId.Bad? || end < zoneId.next + 4 {
        GetAllStaysBad(blob[..end], cursor, index + 1, count, GetStep);
        return Bad;
      }
      var duration := ReadU32(blob, zoneId.next, end);
      items, next := items + [StepConfiguration(zoneId.value, duration)], zoneId.next + 4;
    }
    steps := Parsed(items, next);
  }

  method ReadProgram(blob: array<byte>, cursor: nat, end: nat) returns (program: Parsed<ProgramConfiguration>)
    requires end <= blob.Length
    ensures program == GetProgram(blob[..end], cursor)
  {
    hide GetText, GetAll;
    var programId := ReadText(blob, cursor, end);
    if programId.Bad? { return Bad; }
    var name := ReadText(blob, programId.next, end);
    if name.Bad? || name.next >= end { return Bad; }
    var stepCount := blob[name.next];
    if stepCount > MAX_PROGRAM_STEPS { return Bad; }
    var steps := ReadSteps(blob, name.next + 1, end, stepCount);
    if steps.Bad? { return Bad; }
    return Parsed(ProgramConfiguration(programId.value, name.value, steps.value), steps.next);
  }

  method ReadPrograms(blob: array<byte>, cursor: nat, end: nat, count: nat) returns (programs: Parsed<seq<ProgramConfiguration>>)
    requires end <= blob.Length
    ensures programs == GetAll(blob[..end], cursor, count, GetProgram)
  {
    hide GetProgram;
    var items: seq<ProgramConfiguration> := [];
    var next: nat := cursor;
    for index := 0 to count
      invariant GetAll(blob[..end], cursor, index, GetProgram) == Parsed(items, next)
    {
      var program := ReadProgram(blob, next, end);
      if program.Bad? {
        GetAllStaysBad(blob[..end], cursor, index + 1, count, GetProgram);
        return Bad;
      }
      items, next := items + [program.value], program.next;
    }
    programs := Parsed(items, next);
  }

  method ReadSchedule(blob: array<byte>, cursor: nat, end: nat) returns (schedule: Parsed<ScheduleConfiguration>)
    requires end <= blob.Length
    ensures schedule == GetSchedule(blob[..end], cursor)
  {
    hide GetText;
    var scheduleId := ReadText(blob, cursor, end);
    if scheduleId.Bad? || end < scheduleId.next + 4 { return Bad; }
    var at := scheduleId.next;
    var programId := ReadText(blob, at + 4, end);
    if programId.Bad? { return Bad; }
    return Parsed(
      ScheduleConfiguration(scheduleId.value, blob[at] != 0, blob[at + 1], blob[at + 2], blob[at + 3], programId.value),
      programId.next);
  }

  method ReadSchedules(blob: array<byte>, cursor: nat, end: nat, count: nat) returns (schedules: Parsed<seq<ScheduleConfiguration>>)
    requires end <= blob.Length
    ensures schedules == GetAll(blob[..end], cursor, count, GetSchedule)
  {
    hide GetSchedule;
    var items: seq<ScheduleConfiguration> := [];
    var next: nat := cursor;
    for index := 0 to count
      invariant GetAll(blob[..end], cursor, index, GetSchedule) == Parsed(items, next)
    {
      var schedule := ReadSchedule(blob, next, end);
      if schedule.Bad? {
        GetAllStaysBad(blob[..end], cursor, index + 1, count, GetSchedule);
        return Bad;
      }
      items, next := items + [schedule.value], schedule.next;
    }
    schedules := Parsed(items, next);
  }

  method ReadPayload(blob: array<byte>, end: nat, boardZones: seq<Zone>) returns (decoded: Decoded)
    requires HEADER_SIZE <= end <= blob.Length
    ensures decoded == DecodePayload(blob[..end], boardZones)
  {
    hide GetAll, GetU16, GetU32, Valid;
    var at := HEADER_SIZE;
    if end - at < 13 { return Refuse(Corrupt); }
    var schemaVersion := ReadU16(blob, at, end);
    var zoneCount, programCount, scheduleCount := blob[at + 2], blob[at + 3], blob[at + 4];
    var nextProgramId := ReadU32(blob, at + 5, end);
    var nextScheduleId := ReadU32(blob, at + 9, end);
    if schemaVersion != SCHEMA_VERSION || zoneCount > MAX_ZONES || programCount > MAX_PROGRAMS ||
       scheduleCount > MAX_SCHEDULES {
      return Refuse(Incompatible);
    }
    var zones := ReadZones(blob, at + 13, end, zoneCount);
    if zones.Bad? { return Refuse(Corrupt); }
    var programs := ReadPrograms(blob, zones.next, end, programCount);
    if programs.Bad? { return Refuse(Corrupt); }
    var schedules := ReadSchedules(blob, programs.next, end, scheduleCount);
    if schedules.Bad? || schedules.next != end { return Refuse(Corrupt); }
    var c := IrrigationConfiguration(
      schemaVersion, zones.value, programs.value, schedules.value, nextProgramId, nextScheduleId);
    var valid := Validate(c, boardZones);
    if valid != Ok { return Refuse(InvalidConfiguration); }
    return Decoded(RepositoryOk, c);
  }

  /** Decoding computes the format's meaning of the bytes, and leaves the generation it read from the header. */
  method Decode(blob: array<byte>, length: nat, before: u32, boardZones: seq<Zone>)
    returns (decoded: Decoded, generation: u32)
    requires length <= blob.Length
    ensures decoded == Codec.Decode(blob[..length], boardZones)
    ensures generation == HeaderGeneration(blob[..length], before)
  {
    hide DecodePayload, GetU32, GetU16, Crc32.Crc, Crc32.ToU32;
    generation := before;
    if length < HEADER_SIZE { return Refuse(Corrupt), before; }
    var magic := ReadU32(blob, 0, length);
    if magic != MAGIC { return Refuse(Corrupt), before; }
    var schemaVersion := ReadU16(blob, 4, length);
    if schemaVersion != SCHEMA_VERSION { return Refuse(Incompatible), before; }
    generation := ReadU32(blob, 6, length);
    var payloadLength := ReadU16(blob, 10, length);
    var storedCrc := ReadU32(blob, 12, length);
    if payloadLength > MAX_PAYLOAD_SIZE || length != HEADER_SIZE + payloadLength {
      return Refuse(Corrupt), generation;
    }
    var crc := Crc32.Compute(blob, HEADER_SIZE, payloadLength);
    assert blob[HEADER_SIZE..length] == blob[..length][HEADER_SIZE..];
    if Crc32.ToU32(crc) != storedCrc { return Refuse(Corrupt), generation; }
    decoded := ReadPayload(blob, length, boardZones);
  }
}
