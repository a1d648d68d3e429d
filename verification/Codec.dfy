/** The binary format of a stored configuration: what a blob holds and how it is read back. */
module Codec {
  import opened Bytes
  import opened Common
  import opened Configuration
  import Crc32

  datatype RepositoryResult = RepositoryOk | SlotsEmpty | Corrupt | Incompatible | InvalidConfiguration | StorageError

  const MAGIC: u32 := 0x4746_4349
  const HEADER_SIZE: nat := 16
  const MAX_PAYLOAD_SIZE: nat :=
    13 + MAX_ZONES * (2 * TEXT_SIZE) +
    MAX_PROGRAMS * (2 * TEXT_SIZE + 1 + MAX_PROGRAM_STEPS * (TEXT_SIZE + 4)) +
    MAX_SCHEDULES * (2 * TEXT_SIZE + 4)
  const MAX_BLOB_SIZE: nat := HEADER_SIZE + MAX_PAYLOAD_SIZE

  const EMPTY_CONFIGURATION: IrrigationConfiguration := IrrigationConfiguration(0, [], [], [], 0, 0)

  // ----- Writing: the bytes of each part -----

  predicate Encodable(text: Text) {
    0 < |text| < TEXT_SIZE
  }

  function EncodeText(text: Text): seq<byte> {
    [|text| % 0x100] + text
  }

  function EncodeZone(zone: ZoneConfiguration): seq<byte> {
    EncodeText(zone.zoneId) + EncodeText(zone.displayName)
  }

  function EncodeStep(step: StepConfiguration): seq<byte> {
    EncodeText(step.zoneId) + PutU32(step.durationMs)
  }

  function EncodeProgram(program: ProgramConfiguration): seq<byte> {
    EncodeText(program.programId) + EncodeText(program.displayName) + [|program.steps| % 0x100] +
    EncodeAll(program.steps, EncodeStep)
  }

  function EncodeSchedule(schedule: ScheduleConfiguration): seq<byte> {
    EncodeText(schedule.scheduleId) +
    [if schedule.enabled then 1 else 0, schedule.weekdayMask, schedule.hour, schedule.minute] +
    EncodeText(schedule.programId)
  }

  /** The items one after the other. */
  function EncodeAll<T>(items: seq<T>, encode: T -> seq<byte>): seq<byte> {
    if items == [] then [] else EncodeAll(items[..|items| - 1], encode) + encode(items[|items| - 1])
  }

  function EncodeCounts(c: IrrigationConfiguration): (bytes: seq<byte>)
    ensures |bytes| == 13
  {
    PutU16(c.schemaVersion) + [|c.zones| % 0x100, |c.programs| % 0x100, |c.schedules| % 0x100] +
    PutU32(c.nextProgramId) + PutU32(c.nextScheduleId)
  }

  function EncodePayload(c: IrrigationConfiguration): seq<byte> {
    EncodeCounts(c) + EncodeAll(c.zones, EncodeZone) + EncodeAll(c.programs, EncodeProgram) +
    EncodeAll(c.schedules, EncodeSchedule)
  }

  function EncodeHeader(generation: u32, payload: seq<byte>): (bytes: seq<byte>)
    ensures |bytes| == HEADER_SIZE
  {
    PutU32(MAGIC) + PutU16(SCHEMA_VERSION) + PutU32(generation) + PutU16(|payload| % 0x1_0000) +
    PutU32(Crc32.ToU32(Crc32.Crc(payload)))
  }

  function Blob(c: IrrigationConfiguration, generation: u32): seq<byte> {
    EncodeHeader(generation, EncodePayload(c)) + EncodePayload(c)
  }

  predicate EncodableZone(zone: ZoneConfiguration) {
    Encodable(zone.zoneId) && Encodable(zone.displayName)
  }

  predicate EncodableStep(step: StepConfiguration) {
    Encodable(step.zoneId)
  }

  predicate EncodableProgram(program: ProgramConfiguration) {
    && Encodable(program.programId) && Encodable(program.displayName)
    && forall i | 0 <= i < |program.steps| :: EncodableStep(program.steps[i])
  }

  predicate EncodableSchedule(schedule: ScheduleConfiguration) {
    Encodable(schedule.scheduleId) && Encodable(schedule.programId)
  }

  /** The counts fit the tables. */
  predicate CountsFit(c: IrrigationConfiguration) {
    |c.zones| <= MAX_ZONES && |c.programs| <= MAX_PROGRAMS && |c.schedules| <= MAX_SCHEDULES
  }

  predicate TextsFit(c: IrrigationConfiguration) {
    && (forall i | 0 <= i < |c.zones| :: EncodableZone(c.zones[i]))
    && (forall i | 0 <= i < |c.programs| :: EncodableProgram(c.programs[i]))
    && (forall i | 0 <= i < |c.schedules| :: EncodableSchedule(c.schedules[i]))
  }

  /** The step array of a program holds `MAX_PROGRAM_STEPS` steps. */
  predicate StepsFit(c: IrrigationConfiguration) {
    forall i | 0 <= i < |c.programs| :: |c.programs[i].steps| <= MAX_PROGRAM_STEPS
  }

  function EncodeResult(c: IrrigationConfiguration): RepositoryResult {
    if !CountsFit(c) then InvalidConfiguration
    else if c.schemaVersion != SCHEMA_VERSION then Incompatible
    else if !TextsFit(c) then InvalidConfiguration
    else RepositoryOk
  }

  // ----- Reading -----

  datatype Parsed<+T> = Bad | Parsed(value: T, next: nat)

  function GetText(data: seq<byte>, at: nat): Parsed<Text> {
    if at >= |data| then Bad
    else
      var length := data[at];
      if length == 0 || length >= TEXT_SIZE || |data| - (at + 1) < length then Bad
      else Parsed(CString(data[at + 1..at + 1 + length]), at + 1 + length)
  }

  function GetZone(data: seq<byte>, at: nat): Parsed<ZoneConfiguration> {
    match GetText(data, at)
    case Bad => Bad
    case Parsed(zoneId, afterId) =>
      match GetText(data, afterId)
      case Bad => Bad
      case Parsed(name, next) => Parsed(ZoneConfiguration(zoneId, name), next)
  }

  function GetStep(data: seq<byte>, at: nat): Parsed<StepConfiguration> {
    match GetText(data, at)
    case Bad => Bad
    case Parsed(zoneId, next) =>
      if |data| < next + 4 then Bad else Parsed(StepConfiguration(zoneId, GetU32(data, next)), next + 4)
  }

  function GetProgram(data: seq<byte>, at: nat): Parsed<ProgramConfiguration> {
    match GetText(data, at)
    case Bad => Bad
    case Parsed(programId, afterId) =>
      match GetText(data, afterId)
      case Bad => Bad
      case Parsed(name, afterName) =>
        if afterName >= |data| || data[afterName] > MAX_PROGRAM_STEPS then Bad
        else
          match GetAll(data, afterName + 1, data[afterName], GetStep)
          case Bad => Bad
          case Parsed(steps, next) => Parsed(ProgramConfiguration(programId, name, steps), next)
  }

  function GetSchedule(data: seq<byte>, at: nat): Parsed<ScheduleConfiguration> {
    match GetText(data, at)
    case Bad => Bad
    case Parsed(scheduleId, next) =>
      if |data| < next + 4 then Bad
      else
        match GetText(data, next + 4)
        case Bad => Bad
        case Parsed(programId, end) =>
          Parsed(ScheduleConfiguration(scheduleId, data[next] != 0, data[next + 1], data[next + 2], data[next + 3], programId), end)
  }

  /** `count` items one after the other. */
  function GetAll<T>(data: seq<byte>, at: nat, count: nat, get: (seq<byte>, nat) -> Parsed<T>): Parsed<seq<T>>
    decreases count
  {
    if count == 0 then Parsed([], at)
    else
      match GetAll(data, at, count - 1, get)
      case Bad => Bad
      case Parsed(items, next) =>
        match get(data, next)
        case Bad => Bad
        case Parsed(item, end) => Parsed(items + [item], end)
  }

  datatype Decoded = Decoded(result: RepositoryResult, configuration: IrrigationConfiguration)

  function Refuse(result: RepositoryResult): Decoded {
    Decoded(result, EMPTY_CONFIGURATION)
  }

  /** The generation that decoding writes: as soon as magic and schema match, before the checksum. */
  function HeaderGeneration(data: seq<byte>, before: u32): u32 {
    if |data| < HEADER_SIZE || GetU32(data, 0) != MAGIC || GetU16(data, 4) != SCHEMA_VERSION then before
    else GetU32(data, 6)
  }

  function DecodePayload(data: seq<byte>, boardZones: seq<Zone>): Decoded
    requires |data| >= HEADER_SIZE
  {
    var at := HEADER_SIZE;
    if |data| - at < 13 then Refuse(Corrupt)
    else if GetU16(data, at) != SCHEMA_VERSION || data[at + 2] > MAX_ZONES || data[at + 3] > MAX_PROGRAMS ||
            data[at + 4] > MAX_SCHEDULES then Refuse(Incompatible)
    else
      match GetAll(data, at + 13, data[at + 2], GetZone)
      case Bad => Refuse(Corrupt)
      case Parsed(zones, afterZones) =>
        match GetAll(data, afterZones, data[at + 3], GetProgram)
        case Bad => Refuse(Corrupt)
        case Parsed(programs, afterPrograms) =>
          match GetAll(data, afterPrograms, data[at + 4], GetSchedule)
          case Bad => Refuse(Corrupt)
          case Parsed(schedules, end) =>
            var c := IrrigationConfiguration(
              GetU16(data, at), zones, programs, schedules, GetU32(data, at + 5), GetU32(data, at + 9));
            if end != |data| then Refuse(Corrupt)
            else if !Valid(c, boardZones) then Refuse(InvalidConfiguration)
            else Decoded(RepositoryOk, c)
  }

  function Decode(data: seq<byte>, boardZones: seq<Zone>): Decoded {
    if |data| < HEADER_SIZE || GetU32(data, 0) != MAGIC then Refuse(Corrupt)
    else if GetU16(data, 4) != SCHEMA_VERSION then Refuse(Incompatible)
    else if GetU16(data, 10) > MAX_PAYLOAD_SIZE || |data| != HEADER_SIZE + GetU16(data, 10) ||
            Crc32.ToU32(Crc32.Crc(data[HEADER_SIZE..])) != GetU32(data, 12) then Refuse(Corrupt)
    else DecodePayload(data, boardZones)
  }
}
