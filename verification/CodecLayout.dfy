/** The stored format as a list of fields, which writing and reading are both held against. */
module CodecLayout {
  import opened Bytes
  import opened Common
  import opened Texts
  import opened Configuration
  import opened Codec
  import opened CodecTheorems
  import Crc32

  // ----- The format -----

  datatype Field = Chars(text: Text) | Flag(on: bool) | Number(width: nat, value: nat)

  /** The number in `width` bytes, the least significant first. */
  function LittleEndian(data: seq<byte>, at: nat, width: nat): nat
    requires at + width <= |data|
    decreases width
  {
    if width == 0 then 0 else data[at] + 0x100 * LittleEndian(data, at + 1, width - 1)
  }

  /** The characters in front of the first NUL. */
  predicate EndsAtNul(raw: seq<byte>, text: Text) {
    text <= raw && (|text| < |raw| ==> raw[|text|] == 0)
  }

  /** Where a field ends that stands at a position, if it does; written exactly as the firmware writes it, or so that it is read. */
  function FieldEnd(data: seq<byte>, at: nat, field: Field, exact: bool): (end: Option<nat>)
    ensures end.Some? ==> at <= end.value <= |data|
  {
    match field
    case Chars(text) =>
      if && at < |data| && 1 <= data[at] <= 31 && at + 1 + data[at] <= |data|
         && EndsAtNul(data[at + 1..at + 1 + data[at]], text) && (exact ==> |text| == data[at])
      then Some(at + 1 + data[at]) else None
    case Flag(on) =>
      if at < |data| && (on <==> data[at] != 0) && (exact ==> data[at] <= 1) then Some(at + 1) else None
    case Number(width, value) =>
      if at + width <= |data| && LittleEndian(data, at, width) == value then Some(at + width) else None
  }

  /** Where a list of fields ends. */
  function EndOf(data: seq<byte>, at: nat, fields: seq<Field>, exact: bool): (end: Option<nat>)
    ensures fields != [] && end.Some? ==> end.value <= |data|
    decreases |fields|
  {
    if fields == [] then Some(at)
    else
      match FieldEnd(data, at, fields[0], exact)
      case None => None
      case Some(next) => EndOf(data, next, fields[1..], exact)
  }

  function AllFields<T>(items: seq<T>, fields: T -> seq<Field>): seq<Field> {
    if items == [] then [] else AllFields(items[..|items| - 1], fields) + fields(items[|items| - 1])
  }

  function ZoneFields(zone: ZoneConfiguration): seq<Field> {
    [Chars(zone.zoneId), Chars(zone.displayName)]
  }

  function StepFields(step: StepConfiguration): seq<Field> {
    [Chars(step.zoneId), Number(4, step.durationMs)]
  }

  function ProgramFields(program: ProgramConfiguration): seq<Field> {
    [Chars(program.programId), Chars(program.displayName), Number(1, |program.steps|)] + AllFields(program.steps, StepFields)
  }

  function ScheduleFields(s: ScheduleConfiguration): seq<Field> {
    [Chars(s.scheduleId), Flag(s.enabled), Number(1, s.weekdayMask), Number(1, s.hour), Number(1, s.minute), Chars(s.programId)]
  }

  function CountFields(c: IrrigationConfiguration): seq<Field> {
    [Number(2, c.schemaVersion), Number(1, |c.zones|), Number(1, |c.programs|), Number(1, |c.schedules|),
     Number(4, c.nextProgramId), Number(4, c.nextScheduleId)]
  }

  /** The payload: counts and counters, then the zones, the programs with their steps, and the schedules. */
  function PayloadFields(c: IrrigationConfiguration): seq<Field> {
    CountFields(c) + (AllFields(c.zones, ZoneFields) + (AllFields(c.programs, ProgramFields) + AllFields(c.schedules, ScheduleFields)))
  }

  // ----- Lists of fields -----

  lemma {:induction false} EndOfJoin(data: seq<byte>, at: nat, first: seq<Field>, second: seq<Field>, exact: bool)
    ensures EndOf(data, at, first + second, exact) ==
      match EndOf(data, at, first, exact) case None => None case Some(next) => EndOf(data, next, second, exact)
    decreases |first|
  {
    hide FieldEnd;
    var both := first + second;
    if first == [] {
      assert both == second;
    } else {
      assert both[0] == first[0] && both[1..] == first[1..] + second;
      var next := FieldEnd(data, at, first[0], exact);
      if next.Some? { EndOfJoin(data, next.value, first[1..], second, exact); }
    }
  }

  // ----- Reading -----

  lemma EndsOnce(raw: seq<byte>, text: Text)
    ensures EndsAtNul(raw, text) <==> text == CString(raw)
  {
    var cut := CString(raw);
  }

  lemma TextIsRead(data: seq<byte>, at: nat, text: Text, next: nat)
    ensures GetText(data, at) == Parsed(text, next) <==> FieldEnd(data, at, Chars(text), false) == Some(next)
  {
    hide CString, EndsAtNul;
    if at < |data| && at + 1 + data[at] <= |data| { EndsOnce(data[at + 1..at + 1 + data[at]], text); }
  }

  lemma NumberIsRead(data: seq<byte>, at: nat, value: nat)
    ensures FieldEnd(data, at, Number(4, value), false).Some? <==> at + 4 <= |data| && GetU32(data, at) == value
    ensures FieldEnd(data, at, Number(2, value), false).Some? <==> at + 2 <= |data| && GetU16(data, at) == value
    ensures FieldEnd(data, at, Number(1, value), false).Some? <==> at + 1 <= |data| && data[at] == value
  {
    if at + 4 <= |data| {
      assert LittleEndian(data, at + 3, 1) == data[at + 3];
      assert LittleEndian(data, at + 2, 2) == FromBytes2(data[at + 2], data[at + 3]);
    }
    if at + 2 <= |data| {
      assert LittleEndian(data, at + 1, 1) == data[at + 1];
    }
    if at + 1 <= |data| {
      assert LittleEndian(data, at + 1, 0) == 0;
    }
  }

  lemma Two(data: seq<byte>, at: nat, a: Field, b: Field, exact: bool)
    ensures EndOf(data, at, [a, b], exact) ==
      match FieldEnd(data, at, a, exact) case None => None case Some(next) => FieldEnd(data, next, b, exact)
  {
    hide FieldEnd;
    var next := FieldEnd(data, at, a, exact);
    assert [a, b][1..] == [b] && [b][1..] == [];
    if next.Some? {
      var end := FieldEnd(data, next.value, b, exact);
      assert EndOf(data, next.value, [b], exact) == if end.Some? then EndOf(data, end.value, [], exact) else None;
    }
  }

  lemma ZoneIsRead(data: seq<byte>, at: nat, zone: ZoneConfiguration, next: nat)
    ensures GetZone(data, at) == Parsed(zone, next) <==> EndOf(data, at, ZoneFields(zone), false) == Some(next)
  {
    hide FieldEnd, GetText, EndOf;
    Two(data, at, Chars(zone.zoneId), Chars(zone.displayName), false);
    var first, end := GetText(data, at), FieldEnd(data, at, Chars(zone.zoneId), false);
    if first.Parsed? { TextIsRead(data, at, zone.zoneId, first.next); TextIsRead(data, first.next, zone.displayName, next); }
    if end.Some? { TextIsRead(data, at, zone.zoneId, end.value); }
  }

  lemma StepIsRead(data: seq<byte>, at: nat, step: StepConfiguration, next: nat)
    ensures GetStep(data, at) == Parsed(step, next) <==> EndOf(data, at, StepFields(step), false) == Some(next)
  {
    hide FieldEnd, GetText, EndOf, GetU32;
    Two(data, at, Chars(step.zoneId), Number(4, step.durationMs), false);
    var first, end := GetText(data, at), FieldEnd(data, at, Chars(step.zoneId), false);
    if first.Parsed? { TextIsRead(data, at, step.zoneId, first.next); NumberEnds(data, first.next, 4, step.durationMs, false); NumberIsRead(data, first.next, step.durationMs); }
    if end.Some? { TextIsRead(data, at, step.zoneId, end.value); }
  }

  lemma NumberEnds(data: seq<byte>, at: nat, width: nat, value: nat, exact: bool)
    ensures var end := FieldEnd(data, at, Number(width, value), exact); end.Some? ==> end.value == at + width
    ensures FieldEnd(data, at, Number(width, value), exact) == FieldEnd(data, at, Number(width, value), !exact)
  {
  }

  /** Reading an item means that its fields stand there. */
  ghost predicate ReadAs<T(!new)>(fields: T -> seq<Field>, get: (seq<byte>, nat) -> Parsed<T>, item: T) {
    forall data, at, next: nat :: get(data, at) == Parsed(item, next) <==> EndOf(data, at, fields(item), false) == Some(next)
  }

  lemma {:induction false} ItemsAreRead<T(!new)>(
    items: seq<T>, fields: T -> seq<Field>, get: (seq<byte>, nat) -> Parsed<T>, data: seq<byte>, at: nat, next: nat)
    requires forall i | 0 <= i < |items| :: ReadAs(fields, get, items[i])
    ensures GetAll(data, at, |items|, get) == Parsed(items, next) <==> EndOf(data, at, AllFields(items, fields), false) == Some(next)
    decreases |items|
  {
    hide EndOf, ReadAs;
    if items == [] {
      NoFields(data, at);
    } else {
      var init, last := items[..|items| - 1], items[|items| - 1];
      assert ReadAs(fields, get, last);
      assert forall i | 0 <= i < |init| :: init[i] == items[i];
      EndOfJoin(data, at, AllFields(init, fields), fields(last), false);
      var before, end := GetAll(data, at, |init|, get), EndOf(data, at, AllFields(init, fields), false);
      if end.Some? { ItemsAreRead(init, fields, get, data, at, end.value); LastIsRead(fields, get, last, data, end.value, next); }
      if before.Parsed? {
        ItemsAreRead(init, fields, get, data, at, before.next);
        LastIsRead(fields, get, last, data, before.next, next);
        AppendedAre(before.value, init, last, get(data, before.next), items);
      }
    }
  }

  lemma AppendedAre<T>(read: seq<T>, init: seq<T>, last: T, item: Parsed<T>, items: seq<T>)
    requires items == init + [last]
    ensures item.Parsed? ==> (read + [item.value] == items <==> read == init && item.value == last)
  {
    if item.Parsed? && read + [item.value] == items {
      assert (read + [item.value])[..|read|] == read && items[..|init|] == init;
      assert (read + [item.value])[|read|] == item.value && items[|init|] == last;
    }
  }

  lemma LastIsRead<T(!new)>(fields: T -> seq<Field>, get: (seq<byte>, nat) -> Parsed<T>, item: T, data: seq<byte>, at: nat, next: nat)
    requires ReadAs(fields, get, item)
    ensures get(data, at) == Parsed(item, next) <==> EndOf(data, at, fields(item), false) == Some(next)
  {
  }

  lemma NoFields(data: seq<byte>, at: nat)
    ensures EndOf(data, at, [], false) == Some(at)
  {
  }

  lemma One(data: seq<byte>, at: nat, field: Field, exact: bool)
    ensures EndOf(data, at, [field], exact) == FieldEnd(data, at, field, exact)
  {
    hide FieldEnd;
    var next := FieldEnd(data, at, field, exact);
    assert [field][1..] == [];
    if next.Some? { assert EndOf(data, next.value, [], exact) == next; }
  }

  lemma Three(data: seq<byte>, at: nat, a: Field, b: Field, c: Field, exact: bool)
    ensures EndOf(data, at, [a, b, c], exact) ==
      match EndOf(data, at, [a, b], exact) case None => None case Some(next) => FieldEnd(data, next, c, exact)
  {
    hide FieldEnd, EndOf;
    assert [a, b] + [c] == [a, b, c];
    EndOfJoin(data, at, [a, b], [c], exact);
    var next := EndOf(data, at, [a, b], exact);
    if next.Some? { One(data, next.value, c, exact); }
  }

  lemma ProgramIsRead(data: seq<byte>, at: nat, p: ProgramConfiguration, next: nat)
    requires |p.steps| <= 8
    ensures GetProgram(data, at) == Parsed(p, next) <==> EndOf(data, at, ProgramFields(p), false) == Some(next)
  {
    hide FieldEnd, GetText, EndOf, GetAll, AllFields;
    var id, name, count := Chars(p.programId), Chars(p.displayName), Number(1, |p.steps|);
    EndOfJoin(data, at, [id, name, count], AllFields(p.steps, StepFields), false);
    Three(data, at, id, name, count, false);
    Two(data, at, id, name, false);
    var first, end := GetText(data, at), FieldEnd(data, at, id, false);
    if end.Some? { TextIsRead(data, at, p.programId, end.value); }
    if first.Parsed? {
      TextIsRead(data, at, p.programId, first.next);
      var second, after := GetText(data, first.next), FieldEnd(data, first.next, name, false);
      if after.Some? { TextIsRead(data, first.next, p.displayName, after.value); }
      if second.Parsed? {
        TextIsRead(data, first.next, p.displayName, second.next);
        NumberIsRead(data, second.next, |p.steps|);
        NumberEnds(data, second.next, 1, |p.steps|, false);
        StepsAreRead(p.steps, data, second.next + 1, next);
        if second.next < |data| && data[second.next] != |p.steps| { OtherCount(data, second.next + 1, data[second.next], p.steps); }
      }
    }
  }

  lemma StepsAreRead(steps: seq<StepConfiguration>, data: seq<byte>, at: nat, next: nat)
    ensures GetAll(data, at, |steps|, GetStep) == Parsed(steps, next) <==> EndOf(data, at, AllFields(steps, StepFields), false) == Some(next)
  {
    hide EndOf, GetStep, GetAll, AllFields;
    forall i | 0 <= i < |steps| ensures ReadAs(StepFields, GetStep, steps[i]) {
      forall data, at, next: nat
        ensures GetStep(data, at) == Parsed(steps[i], next) <==> EndOf(data, at, StepFields(steps[i]), false) == Some(next)
      {
        StepIsRead(data, at, steps[i], next);
      }
    }
    ItemsAreRead(steps, StepFields, GetStep, data, at, next);
  }

  /** A list that is read has as many items as were asked for. */
  lemma {:induction false} CountIsRead<T>(data: seq<byte>, at: nat, count: nat, get: (seq<byte>, nat) -> Parsed<T>)
    ensures var read := GetAll(data, at, count, get); read.Parsed? ==> |read.value| == count
    decreases count
  {
    if count > 0 { CountIsRead(data, at, count - 1, get); }
  }

  lemma OtherCount(data: seq<byte>, at: nat, count: nat, steps: seq<StepConfiguration>)
    requires count != |steps|
    ensures var read := GetAll(data, at, count, GetStep); read.Parsed? ==> read.value != steps
  {
    CountIsRead(data, at, count, GetStep);
  }

  lemma FourBytes(data: seq<byte>, at: nat, on: bool, a: nat, b: nat, c: nat, next: nat)
    ensures EndOf(data, at, [Flag(on), Number(1, a), Number(1, b), Number(1, c)], false) == Some(next) <==>
      next == at + 4 <= |data| && (on <==> data[at] != 0) && data[at + 1] == a && data[at + 2] == b && data[at + 3] == c
  {
    hide EndOf;
    assert [Flag(on), Number(1, a)] + [Number(1, b), Number(1, c)] == [Flag(on), Number(1, a), Number(1, b), Number(1, c)];
    EndOfJoin(data, at, [Flag(on), Number(1, a)], [Number(1, b), Number(1, c)], false);
    Two(data, at, Flag(on), Number(1, a), false);
    Two(data, at + 2, Number(1, b), Number(1, c), false);
    NumberIsRead(data, at + 1, a);
    NumberIsRead(data, at + 2, b);
    NumberIsRead(data, at + 3, c);
  }

  lemma ScheduleIsRead(data: seq<byte>, at: nat, s: ScheduleConfiguration, next: nat)
    ensures GetSchedule(data, at) == Parsed(s, next) <==> EndOf(data, at, ScheduleFields(s), false) == Some(next)
  {
    hide FieldEnd, GetText, EndOf;
    var id, middle, last := Chars(s.scheduleId), [Flag(s.enabled), Number(1, s.weekdayMask), Number(1, s.hour), Number(1, s.minute)], Chars(s.programId);
    assert [id] + (middle + [last]) == ScheduleFields(s);
    EndOfJoin(data, at, [id], middle + [last], false);
    One(data, at, id, false);
    var first, end := GetText(data, at), FieldEnd(data, at, id, false);
    if end.Some? { TextIsRead(data, at, s.scheduleId, end.value); }
    if first.Parsed? {
      TextIsRead(data, at, s.scheduleId, first.next);
      EndOfJoin(data, first.next, middle, [last], false);
      FourBytes(data, first.next, s.enabled, s.weekdayMask, s.hour, s.minute, first.next + 4);
      var after := EndOf(data, first.next, middle, false);
      if after.Some? { FourBytes(data, first.next, s.enabled, s.weekdayMask, s.hour, s.minute, after.value); }
      One(data, first.next + 4, last, false);
      TextIsRead(data, first.next + 4, s.programId, next);
    }
  }

  // ----- The whole payload -----

  /** What fits the tables, whether or not it is valid. */
  predicate Readable(c: IrrigationConfiguration) {
    && c.schemaVersion == 1 && |c.zones| <= 8 && |c.programs| <= 4 && |c.schedules| <= 16
    && forall i | 0 <= i < |c.programs| :: |c.programs[i].steps| <= 8
  }

  lemma ZonesAreRead(zones: seq<ZoneConfiguration>, data: seq<byte>, at: nat, next: nat)
    ensures GetAll(data, at, |zones|, GetZone) == Parsed(zones, next) <==> EndOf(data, at, AllFields(zones, ZoneFields), false) == Some(next)
  {
    hide EndOf, GetZone, GetAll, AllFields;
    forall i | 0 <= i < |zones| ensures ReadAs(ZoneFields, GetZone, zones[i]) {
      forall data, at, next: nat
        ensures GetZone(data, at) == Parsed(zones[i], next) <==> EndOf(data, at, ZoneFields(zones[i]), false) == Some(next)
      {
        ZoneIsRead(data, at, zones[i], next);
      }
    }
    ItemsAreRead(zones, ZoneFields, GetZone, data, at, next);
  }

  lemma ProgramsAreRead(programs: seq<ProgramConfiguration>, data: seq<byte>, at: nat, next: nat)
    requires forall i | 0 <= i < |programs| :: |programs[i].steps| <= 8
    ensures GetAll(data, at, |programs|, GetProgram) == Parsed(programs, next) <==>
      EndOf(data, at, AllFields(programs, ProgramFields), false) == Some(next)
  {
    hide EndOf, GetProgram, GetAll, AllFields;
    forall i | 0 <= i < |programs| ensures ReadAs(ProgramFields, GetProgram, programs[i]) {
      forall data, at, next: nat
        ensures GetProgram(data, at) == Parsed(programs[i], next) <==> EndOf(data, at, ProgramFields(programs[i]), false) == Some(next)
      {
        ProgramIsRead(data, at, programs[i], next);
      }
    }
    ItemsAreRead(programs, ProgramFields, GetProgram, data, at, next);
  }

  lemma SchedulesAreRead(schedules: seq<ScheduleConfiguration>, data: seq<byte>, at: nat, next: nat)
    ensures GetAll(data, at, |schedules|, GetSchedule) == Parsed(schedules, next) <==>
      EndOf(data, at, AllFields(schedules, ScheduleFields), false) == Some(next)
  {
    hide EndOf, GetSchedule, GetAll, AllFields;
    forall i | 0 <= i < |schedules| ensures ReadAs(ScheduleFields, GetSchedule, schedules[i]) {
      forall data, at, next: nat
        ensures GetSchedule(data, at) == Parsed(schedules[i], next) <==> EndOf(data, at, ScheduleFields(schedules[i]), false) == Some(next)
      {
        ScheduleIsRead(data, at, schedules[i], next);
      }
    }
    ItemsAreRead(schedules, ScheduleFields, GetSchedule, data, at, next);
  }

  lemma CountsAreRead(data: seq<byte>, at: nat, c: IrrigationConfiguration, next: nat)
    ensures EndOf(data, at, CountFields(c), false) == Some(next) <==>
      && next == at + 13 <= |data| && GetU16(data, at) == c.schemaVersion
      && data[at + 2] == |c.zones| && data[at + 3] == |c.programs| && data[at + 4] == |c.schedules|
      && GetU32(data, at + 5) == c.nextProgramId && GetU32(data, at + 9) == c.nextScheduleId
  {
    hide EndOf, GetU16, GetU32;
    var first, second, third := [Number(2, c.schemaVersion), Number(1, |c.zones|)], [Number(1, |c.programs|), Number(1, |c.schedules|)],
                                [Number(4, c.nextProgramId), Number(4, c.nextScheduleId)];
    assert CountFields(c) == first + (second + third);
    EndOfJoin(data, at, first, second + third, false);
    EndOfJoin(data, at + 3, second, third, false);
    Two(data, at, first[0], first[1], false);
    Two(data, at + 3, second[0], second[1], false);
    Two(data, at + 5, third[0], third[1], false);
    NumberEnds(data, at, 2, c.schemaVersion, false);
    NumberEnds(data, at + 2, 1, |c.zones|, false);
    NumberEnds(data, at + 3, 1, |c.programs|, false);
    NumberEnds(data, at + 4, 1, |c.schedules|, false);
    NumberEnds(data, at + 5, 4, c.nextProgramId, false);
    NumberEnds(data, at + 9, 4, c.nextScheduleId, false);
    NumberIsRead(data, at, c.schemaVersion);
    NumberIsRead(data, at + 2, |c.zones|);
    NumberIsRead(data, at + 3, |c.programs|);
    NumberIsRead(data, at + 4, |c.schedules|);
    NumberIsRead(data, at + 5, c.nextProgramId);
    NumberIsRead(data, at + 9, c.nextScheduleId);
  }

  /** A payload whose fields are those of a configuration is read as that configuration. */
  lemma PayloadIsRead(data: seq<byte>, c: IrrigationConfiguration, boardZones: seq<Zone>)
    requires |data| >= 16 && Readable(c) && EndOf(data, 16, PayloadFields(c), false) == Some(|data|)
    ensures DecodePayload(data, boardZones) == if Valid(c, boardZones) then Decoded(RepositoryOk, c) else Refuse(InvalidConfiguration)
  {
    hide EndOf, AllFields, GetAll, Valid, GetU16, GetU32;
    var zones, programs, schedules := AllFields(c.zones, ZoneFields), AllFields(c.programs, ProgramFields), AllFields(c.schedules, ScheduleFields);
    EndOfJoin(data, 16, CountFields(c), zones + (programs + schedules), false);
    var counted := EndOf(data, 16, CountFields(c), false).value;
    CountsAreRead(data, 16, c, counted);
    EndOfJoin(data, counted, zones, programs + schedules, false);
    var zoned := EndOf(data, counted, zones, false).value;
    ZonesAreRead(c.zones, data, counted, zoned);
    EndOfJoin(data, zoned, programs, schedules, false);
    var programmed := EndOf(data, zoned, programs, false).value;
    ProgramsAreRead(c.programs, data, zoned, programmed);
    SchedulesAreRead(c.schedules, data, programmed, |data|);
  }

  lemma {:induction false} StepsReadFit(data: seq<byte>, at: nat, count: nat)
    ensures var read := GetAll(data, at, count, GetProgram); read.Parsed? ==> forall i | 0 <= i < |read.value| :: |read.value[i].steps| <= 8
    decreases count
  {
    hide GetText;
    if count > 0 {
      StepsReadFit(data, at, count - 1);
      var before := GetAll(data, at, count - 1, GetProgram);
      if before.Parsed? && GetProgram(data, before.next).Parsed? { OneProgramFits(data, before.next); }
    }
  }

  lemma OneProgramFits(data: seq<byte>, at: nat)
    requires GetProgram(data, at).Parsed?
    ensures |GetProgram(data, at).value.steps| <= 8
  {
    hide GetText, GetAll;
    var afterName := GetText(data, GetText(data, at).next).next;
    CountIsRead(data, afterName + 1, data[afterName], GetStep);
  }

  /** Whatever was read to the end has its fields in the payload. */
  lemma PayloadWasRead(data: seq<byte>, boardZones: seq<Zone>) returns (c: IrrigationConfiguration)
    requires |data| >= 16 && DecodePayload(data, boardZones).result in {RepositoryOk, InvalidConfiguration}
    ensures Readable(c) && EndOf(data, 16, PayloadFields(c), false) == Some(|data|)
    ensures DecodePayload(data, boardZones).result == RepositoryOk ==> Valid(c, boardZones) && c == DecodePayload(data, boardZones).configuration
  {
    hide EndOf, AllFields, GetAll, Valid, GetU16, GetU32;
    var zones := GetAll(data, 29, data[18], GetZone);
    var programs := GetAll(data, zones.next, data[19], GetProgram);
    var schedules := GetAll(data, programs.next, data[20], GetSchedule);
    c := IrrigationConfiguration(GetU16(data, 16), zones.value, programs.value, schedules.value, GetU32(data, 21), GetU32(data, 25));
    CountIsRead(data, 29, data[18], GetZone);
    CountIsRead(data, zones.next, data[19], GetProgram);
    CountIsRead(data, programs.next, data[20], GetSchedule);
    StepsReadFit(data, zones.next, data[19]);
    CountsAreRead(data, 16, c, 29);
    ZonesAreRead(c.zones, data, 29, zones.next);
    ProgramsAreRead(c.programs, data, zones.next, programs.next);
    SchedulesAreRead(c.schedules, data, programs.next, |data|);
    var zf, pf, sf := AllFields(c.zones, ZoneFields), AllFields(c.programs, ProgramFields), AllFields(c.schedules, ScheduleFields);
    EndOfJoin(data, 16, CountFields(c), zf + (pf + sf), false);
    EndOfJoin(data, 29, zf, pf + sf, false);
    EndOfJoin(data, zones.next, pf, sf, false);
  }

  // ----- The header -----

  predicate Magic(data: seq<byte>) {
    |data| >= 16 && data[..4] == Ascii("ICFG")
  }

  /** The length and the checksum of the header are those of what follows it. */
  predicate Sealed(data: seq<byte>)
    requires |data| >= 16
  {
    && |data| <= 16 + 3025 && LittleEndian(data, 10, 2) == |data| - 16
    && LittleEndian(data, 12, 4) == Crc32.ToU32(Crc32.Crc(data[16..]))
  }

  lemma HeaderIsRead(data: seq<byte>)
    requires |data| >= 16
    ensures Magic(data) <==> GetU32(data, 0) == MAGIC
    ensures LittleEndian(data, 4, 2) == GetU16(data, 4) && LittleEndian(data, 6, 4) == GetU32(data, 6)
    ensures Sealed(data) <==>
      && GetU16(data, 10) <= MAX_PAYLOAD_SIZE && |data| == HEADER_SIZE + GetU16(data, 10)
      && Crc32.ToU32(Crc32.Crc(data[HEADER_SIZE..])) == GetU32(data, 12)
  {
    hide Crc32.ToU32, Crc32.Crc;
    NumberIsRead(data, 4, LittleEndian(data, 4, 2));
    NumberIsRead(data, 6, LittleEndian(data, 6, 4));
    NumberIsRead(data, 10, LittleEndian(data, 10, 2));
    NumberIsRead(data, 12, LittleEndian(data, 12, 4));
    var ascii := Ascii("ICFG");
    assert ascii == [0x49, 0x43, 0x46, 0x47];
    assert data[..4] == [data[0], data[1], data[2], data[3]];
    MagicBytes(data[0], data[1], data[2], data[3]);
  }

  lemma MagicBytes(b0: byte, b1: byte, b2: byte, b3: byte)
    ensures FromBytes4(b0, b1, b2, b3) == MAGIC <==> b0 == 0x49 && b1 == 0x43 && b2 == 0x46 && b3 == 0x47
  {
  }

  /** The fields of some configuration fill the payload. */
  ghost predicate Holding(data: seq<byte>, c: IrrigationConfiguration) {
    |data| >= 16 && Readable(c) && EndOf(data, 16, PayloadFields(c), false) == Some(|data|)
  }

  /** The payload is of another version, or has more entries than there is room for. */
  predicate Foreign(data: seq<byte>) {
    |data| >= 29 && (LittleEndian(data, 16, 2) != 1 || data[18] > 8 || data[19] > 4 || data[20] > 16)
  }

  /**
   What decoding answers, of all byte sequences: a configuration exactly if the header seals a payload that is made of the fields
   of that configuration and the configuration is valid.
   */
  lemma DecodeExactly(data: seq<byte>, boardZones: seq<Zone>)
    ensures var decoded := Decode(data, boardZones);
            if !Magic(data) then decoded.result == Corrupt
            else if LittleEndian(data, 4, 2) != 1 then decoded.result == Incompatible
            else if !Sealed(data) then decoded.result == Corrupt
            else if Foreign(data) then decoded.result == Incompatible
            else
              && (forall c :: Holding(data, c) ==>
                    decoded == if Valid(c, boardZones) then Decoded(RepositoryOk, c) else Refuse(InvalidConfiguration))
              && ((forall c :: !Holding(data, c)) ==> decoded.result == Corrupt)
  {
    hide EndOf, AllFields, GetAll, Valid, GetU16, GetU32, Magic, Sealed, LittleEndian, Crc32.ToU32, Crc32.Crc, DecodePayload;
    if |data| >= 16 { HeaderIsRead(data); } else { assert !Magic(data) by { ShortHasNoMagic(data); } }
    if Magic(data) && LittleEndian(data, 4, 2) == 1 && Sealed(data) {
      PayloadClass(data, boardZones);
      if !Foreign(data) {
        forall c | Holding(data, c)
          ensures Decode(data, boardZones) == if Valid(c, boardZones) then Decoded(RepositoryOk, c) else Refuse(InvalidConfiguration)
        {
          PayloadIsRead(data, c, boardZones);
        }
        if DecodePayload(data, boardZones).result != Corrupt {
          var c := PayloadWasRead(data, boardZones);
          assert Holding(data, c);
        }
      }
    }
  }

  lemma ShortHasNoMagic(data: seq<byte>)
    requires |data| < 16
    ensures !Magic(data)
  {
  }

  lemma PayloadClass(data: seq<byte>, boardZones: seq<Zone>)
    requires |data| >= 16
    ensures Foreign(data) ==> DecodePayload(data, boardZones).result == Incompatible
    ensures !Foreign(data) ==> DecodePayload(data, boardZones).result in {RepositoryOk, InvalidConfiguration, Corrupt}
  {
    hide GetAll, Valid, LittleEndian, GetU16, GetU32;
    if |data| >= 29 { NumberIsRead(data, 16, LittleEndian(data, 16, 2)); }
  }

  /** The generation is in the header, whether or not the rest can be read. */
  lemma GenerationIsInTheHeader(data: seq<byte>, before: u32)
    ensures HeaderGeneration(data, before) == if Magic(data) && LittleEndian(data, 4, 2) == 1 then LittleEndian(data, 6, 4) else before
  {
    hide Magic, LittleEndian, GetU16, GetU32;
    if |data| >= 16 { HeaderIsRead(data); } else { ShortHasNoMagic(data); }
  }

  // ----- Writing -----

  /** Writing an item puts exactly its fields there. */
  ghost predicate WritesAs<T(!new)>(fields: T -> seq<Field>, encode: T -> seq<byte>, item: T) {
    forall data: seq<byte>, at: nat :: Holds(data, at, encode(item)) ==> EndOf(data, at, fields(item), true) == Some(at + |encode(item)|)
  }

  lemma TextIsWritten(data: seq<byte>, at: nat, text: Text)
    requires Encodable(text) && Holds(data, at, EncodeText(text))
    ensures FieldEnd(data, at, Chars(text), true) == Some(at + |EncodeText(text)|)
  {
    HoldsSplit(data, at, [|text|], text);
    HoldsAt(data, at, [|text|], 0);
  }

  lemma NumberIsWritten(data: seq<byte>, at: nat, value: u32)
    ensures Holds(data, at, PutU32(value)) ==> FieldEnd(data, at, Number(4, value), true) == Some(at + 4)
    ensures value < 0x1_0000 && Holds(data, at, PutU16(value)) ==> FieldEnd(data, at, Number(2, value), true) == Some(at + 2)
    ensures value < 0x100 && Holds(data, at, [value]) ==> FieldEnd(data, at, Number(1, value), true) == Some(at + 1)
  {
    hide FieldEnd;
    NumberIsRead(data, at, value);
    NumberEnds(data, at, 4, value, true);
    NumberEnds(data, at, 2, value, true);
    NumberEnds(data, at, 1, value, true);
    if Holds(data, at, PutU32(value)) { PutGetU32(data, at, value); }
    if value < 0x1_0000 && Holds(data, at, PutU16(value)) { PutGetU16(data, at, value); }
    if value < 0x100 && Holds(data, at, [value]) { HoldsAt(data, at, [value], 0); }
  }

  lemma ZoneIsWritten(zone: ZoneConfiguration)
    requires EncodableZone(zone)
    ensures WritesAs(ZoneFields, EncodeZone, zone)
  {
    hide FieldEnd, EndOf, EncodeText;
    forall data: seq<byte>, at: nat | Holds(data, at, EncodeZone(zone))
      ensures EndOf(data, at, ZoneFields(zone), true) == Some(at + |EncodeZone(zone)|)
    {
      HoldsSplit(data, at, EncodeText(zone.zoneId), EncodeText(zone.displayName));
      TextIsWritten(data, at, zone.zoneId);
      TextIsWritten(data, at + |EncodeText(zone.zoneId)|, zone.displayName);
      Two(data, at, Chars(zone.zoneId), Chars(zone.displayName), true);
    }
  }

  lemma StepIsWritten(step: StepConfiguration)
    requires EncodableStep(step)
    ensures WritesAs(StepFields, EncodeStep, step)
  {
    hide FieldEnd, EndOf, EncodeText, PutU32;
    forall data: seq<byte>, at: nat | Holds(data, at, EncodeStep(step))
      ensures EndOf(data, at, StepFields(step), true) == Some(at + |EncodeStep(step)|)
    {
      HoldsSplit(data, at, EncodeText(step.zoneId), PutU32(step.durationMs));
      TextIsWritten(data, at, step.zoneId);
      NumberIsWritten(data, at + |EncodeText(step.zoneId)|, step.durationMs);
      Two(data, at, Chars(step.zoneId), Number(4, step.durationMs), true);
    }
  }

  lemma {:induction false} ItemsAreWritten<T(!new)>(
    items: seq<T>, fields: T -> seq<Field>, encode: T -> seq<byte>, data: seq<byte>, at: nat)
    requires forall i | 0 <= i < |items| :: WritesAs(fields, encode, items[i])
    requires Holds(data, at, EncodeAll(items, encode))
    ensures EndOf(data, at, AllFields(items, fields), true) == Some(at + |EncodeAll(items, encode)|)
    decreases |items|
  {
    hide EndOf;
    if items == [] {
      assert EndOf(data, at, [], true) == Some(at) by { NothingEnds(data, at); }
    } else {
      var init, last := items[..|items| - 1], items[|items| - 1];
      assert WritesAs(fields, encode, last);
      assert forall i | 0 <= i < |init| :: init[i] == items[i];
      HoldsSplit(data, at, EncodeAll(init, encode), encode(last));
      ItemsAreWritten(init, fields, encode, data, at);
      EndOfJoin(data, at, AllFields(init, fields), fields(last), true);
    }
  }

  lemma NothingEnds(data: seq<byte>, at: nat)
    ensures EndOf(data, at, [], true) == Some(at)
  {
  }

  lemma StepsAreWritten(steps: seq<StepConfiguration>, data: seq<byte>, at: nat)
    requires (forall i | 0 <= i < |steps| :: EncodableStep(steps[i])) && Holds(data, at, EncodeAll(steps, EncodeStep))
    ensures EndOf(data, at, AllFields(steps, StepFields), true) == Some(at + |EncodeAll(steps, EncodeStep)|)
  {
    hide EndOf, AllFields, EncodeAll, Holds, WritesAs;
    forall i | 0 <= i < |steps| ensures WritesAs(StepFields, EncodeStep, steps[i]) { StepIsWritten(steps[i]); }
    ItemsAreWritten(steps, StepFields, EncodeStep, data, at);
  }

  lemma ProgramIsWritten(p: ProgramConfiguration)
    requires EncodableProgram(p) && |p.steps| <= 8
    ensures WritesAs(ProgramFields, EncodeProgram, p)
  {
    hide FieldEnd, EndOf, EncodeText, EncodeAll, AllFields;
    forall data: seq<byte>, at: nat | Holds(data, at, EncodeProgram(p))
      ensures EndOf(data, at, ProgramFields(p), true) == Some(at + |EncodeProgram(p)|)
    {
      var id, name := EncodeText(p.programId), EncodeText(p.displayName);
      HoldsFour(data, at, id, name, [|p.steps|], EncodeAll(p.steps, EncodeStep));
      TextIsWritten(data, at, p.programId);
      TextIsWritten(data, at + |id|, p.displayName);
      NumberIsWritten(data, at + |id| + |name|, |p.steps|);
      StepsAreWritten(p.steps, data, at + |id| + |name| + 1);
      Two(data, at, Chars(p.programId), Chars(p.displayName), true);
      Three(data, at, Chars(p.programId), Chars(p.displayName), Number(1, |p.steps|), true);
      EndOfJoin(data, at, [Chars(p.programId), Chars(p.displayName), Number(1, |p.steps|)], AllFields(p.steps, StepFields), true);
    }
  }

  lemma FlagsAreWritten(data: seq<byte>, at: nat, s: ScheduleConfiguration)
    requires Holds(data, at, [if s.enabled then 1 else 0, s.weekdayMask, s.hour, s.minute])
    ensures EndOf(data, at, [Flag(s.enabled), Number(1, s.weekdayMask), Number(1, s.hour), Number(1, s.minute)], true) == Some(at + 4)
  {
    hide EndOf;
    var bytes: seq<byte> := [if s.enabled then 1 else 0, s.weekdayMask, s.hour, s.minute];
    HoldsAt(data, at, bytes, 0);
    HoldsAt(data, at, bytes, 1);
    HoldsAt(data, at, bytes, 2);
    HoldsAt(data, at, bytes, 3);
    var first, second := [Flag(s.enabled), Number(1, s.weekdayMask)], [Number(1, s.hour), Number(1, s.minute)];
    assert first + second == [Flag(s.enabled), Number(1, s.weekdayMask), Number(1, s.hour), Number(1, s.minute)];
    EndOfJoin(data, at, first, second, true);
    Two(data, at, first[0], first[1], true);
    Two(data, at + 2, second[0], second[1], true);
    NumberIsRead(data, at + 1, s.weekdayMask);
    NumberIsRead(data, at + 2, s.hour);
    NumberIsRead(data, at + 3, s.minute);
  }

  lemma ScheduleIsWritten(s: ScheduleConfiguration)
    requires EncodableSchedule(s)
    ensures WritesAs(ScheduleFields, EncodeSchedule, s)
  {
    hide FieldEnd, EndOf, EncodeText;
    forall data: seq<byte>, at: nat | Holds(data, at, EncodeSchedule(s))
      ensures EndOf(data, at, ScheduleFields(s), true) == Some(at + |EncodeSchedule(s)|)
    {
      var id, bytes, program := EncodeText(s.scheduleId), [if s.enabled then 1 else 0, s.weekdayMask, s.hour, s.minute], EncodeText(s.programId);
      HoldsSplit(data, at, id + bytes, program);
      HoldsSplit(data, at, id, bytes);
      TextIsWritten(data, at, s.scheduleId);
      FlagsAreWritten(data, at + |id|, s);
      TextIsWritten(data, at + |id| + 4, s.programId);
      var first, middle, last := [Chars(s.scheduleId)], [Flag(s.enabled), Number(1, s.weekdayMask), Number(1, s.hour), Number(1, s.minute)],
                                 [Chars(s.programId)];
      assert first + (middle + last) == ScheduleFields(s);
      EndOfJoin(data, at, first, middle + last, true);
      EndOfJoin(data, at + |id|, middle, last, true);
      One(data, at, first[0], true);
      One(data, at + |id| + 4, last[0], true);
    }
  }

  /** A text has between one and 31 characters. */
  predicate Writable(text: Text) {
    1 <= |text| <= 31
  }

  /** What encoding refuses, and in which order: counts that do not fit, another version, a text that is empty or too long. */
  lemma EncodeExactly(c: IrrigationConfiguration)
    ensures EncodeResult(c) ==
      if |c.zones| > 8 || |c.programs| > 4 || |c.schedules| > 16 then InvalidConfiguration
      else if c.schemaVersion != 1 then Incompatible
      else if && (forall z | z in c.zones :: Writable(z.zoneId) && Writable(z.displayName))
              && (forall p | p in c.programs :: Writable(p.programId) && Writable(p.displayName) && forall s | s in p.steps :: Writable(s.zoneId))
              && (forall s | s in c.schedules :: Writable(s.scheduleId) && Writable(s.programId))
      then RepositoryOk
      else InvalidConfiguration
  {
    var texts := TextsFit(c);
    if texts {
      assert forall z | z in c.zones :: EncodableZone(z);
      assert forall p | p in c.programs :: EncodableProgram(p);
      assert forall s | s in c.schedules :: EncodableSchedule(s);
    } else if && (forall z | z in c.zones :: Writable(z.zoneId) && Writable(z.displayName))
              && (forall s | s in c.schedules :: Writable(s.scheduleId) && Writable(s.programId)) {
      assert forall i | 0 <= i < |c.zones| :: EncodableZone(c.zones[i]);
      assert forall i | 0 <= i < |c.schedules| :: EncodableSchedule(c.schedules[i]);
      var i :| 0 <= i < |c.programs| && !EncodableProgram(c.programs[i]);
      assert c.programs[i] in c.programs;
    }
  }

  lemma CountsAreWritten(c: IrrigationConfiguration, data: seq<byte>, at: nat)
    requires CountsFit(c) && Holds(data, at, EncodeCounts(c))
    ensures EndOf(data, at, CountFields(c), true) == Some(at + 13)
  {
    hide EndOf, FieldEnd, GetU16, GetU32;
    CountsReadBack(c, data, at);
    CountsAreRead(data, at, c, at + 13);
    NumbersOnly(data, at, CountFields(c));
  }

  /** Numbers have one form only. */
  lemma {:induction false} NumbersOnly(data: seq<byte>, at: nat, fields: seq<Field>)
    requires forall i | 0 <= i < |fields| :: fields[i].Number?
    ensures EndOf(data, at, fields, true) == EndOf(data, at, fields, false)
    decreases |fields|
  {
    if fields != [] {
      var next := FieldEnd(data, at, fields[0], true);
      if next.Some? { NumbersOnly(data, next.value, fields[1..]); }
    }
  }

  lemma ZonesAreWritten(zones: seq<ZoneConfiguration>, data: seq<byte>, at: nat)
    requires (forall i | 0 <= i < |zones| :: EncodableZone(zones[i])) && Holds(data, at, EncodeAll(zones, EncodeZone))
    ensures EndOf(data, at, AllFields(zones, ZoneFields), true) == Some(at + |EncodeAll(zones, EncodeZone)|)
  {
    hide EndOf, AllFields, EncodeAll, Holds, WritesAs;
    forall i | 0 <= i < |zones| ensures WritesAs(ZoneFields, EncodeZone, zones[i]) { ZoneIsWritten(zones[i]); }
    ItemsAreWritten(zones, ZoneFields, EncodeZone, data, at);
  }

  lemma ProgramsAreWritten(programs: seq<ProgramConfiguration>, data: seq<byte>, at: nat)
    requires forall i | 0 <= i < |programs| :: EncodableProgram(programs[i]) && |programs[i].steps| <= 8
    requires Holds(data, at, EncodeAll(programs, EncodeProgram))
    ensures EndOf(data, at, AllFields(programs, ProgramFields), true) == Some(at + |EncodeAll(programs, EncodeProgram)|)
  {
    hide EndOf, AllFields, EncodeAll, Holds, WritesAs;
    forall i | 0 <= i < |programs| ensures WritesAs(ProgramFields, EncodeProgram, programs[i]) { ProgramIsWritten(programs[i]); }
    ItemsAreWritten(programs, ProgramFields, EncodeProgram, data, at);
  }

  lemma SchedulesAreWritten(schedules: seq<ScheduleConfiguration>, data: seq<byte>, at: nat)
    requires (forall i | 0 <= i < |schedules| :: EncodableSchedule(schedules[i])) && Holds(data, at, EncodeAll(schedules, EncodeSchedule))
    ensures EndOf(data, at, AllFields(schedules, ScheduleFields), true) == Some(at + |EncodeAll(schedules, EncodeSchedule)|)
  {
    hide EndOf, AllFields, EncodeAll, Holds, WritesAs;
    forall i | 0 <= i < |schedules| ensures WritesAs(ScheduleFields, EncodeSchedule, schedules[i]) { ScheduleIsWritten(schedules[i]); }
    ItemsAreWritten(schedules, ScheduleFields, EncodeSchedule, data, at);
  }

  lemma PayloadIsWritten(c: IrrigationConfiguration, data: seq<byte>, at: nat)
    requires EncodeResult(c) == RepositoryOk && Codec.StepsFit(c) && Holds(data, at, EncodePayload(c))
    ensures EndOf(data, at, PayloadFields(c), true) == Some(at + |EncodePayload(c)|)
  {
    hide EndOf, AllFields, EncodeAll, Holds, EncodeCounts;
    var counts, zones, programs, schedules :=
      EncodeCounts(c), EncodeAll(c.zones, EncodeZone), EncodeAll(c.programs, EncodeProgram), EncodeAll(c.schedules, EncodeSchedule);
    HoldsFour(data, at, counts, zones, programs, schedules);
    CountsAreWritten(c, data, at);
    ZonesAreWritten(c.zones, data, at + 13);
    ProgramsAreWritten(c.programs, data, at + 13 + |zones|);
    SchedulesAreWritten(c.schedules, data, at + 13 + |zones| + |programs|);
    var zf, pf, sf := AllFields(c.zones, ZoneFields), AllFields(c.programs, ProgramFields), AllFields(c.schedules, ScheduleFields);
    EndOfJoin(data, at, CountFields(c), zf + (pf + sf), true);
    EndOfJoin(data, at + 13, zf, pf + sf, true);
    EndOfJoin(data, at + 13 + |zones|, pf, sf, true);
  }

  /** The blob of a valid configuration: a header that seals exactly its fields, under the generation it was given. */
  lemma BlobExactly(c: IrrigationConfiguration, generation: u32, boardZones: seq<Zone>)
    requires Valid(c, boardZones)
    ensures var blob := Blob(c, generation);
            && Magic(blob) && LittleEndian(blob, 4, 2) == 1 && LittleEndian(blob, 6, 4) == generation && Sealed(blob)
            && EndOf(blob, 16, PayloadFields(c), true) == Some(|blob|)
  {
    hide EndOf, AllFields, EncodeAll, Magic, Sealed, LittleEndian, GetU16, GetU32, Valid, Crc32.ToU32, Crc32.Crc, EncodePayload, EncodeHeader;
    var blob, payload := Blob(c, generation), EncodePayload(c);
    ValidIsEncodable(c, boardZones);
    PayloadBound(c);
    assert blob[..16] == EncodeHeader(generation, payload) && blob[16..] == payload;
    assert Holds(blob, 16, payload) && Holds(blob, 0, EncodeHeader(generation, payload));
    HeaderReadsBack(blob, generation, payload);
    HeaderIsRead(blob);
    PayloadIsWritten(c, blob, 16);
  }
}
