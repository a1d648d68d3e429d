/**
 The runtime views: programs and schedule ids in slots, and scheduler entries that point into them. Rebuilding them makes
 them agree with a configuration, as far as the slots go.
 */
module RuntimeViews {
  import opened Common
  import opened Configuration
  import opened Plants
  import opened SlotTables
  import opened SchedulerServices

  /** `schedules[k]` is the entry of the k-th configured schedule; its id and program are slots. */
  datatype Views = Views(
    programUsed: seq<bool>,
    programIds: seq<Text>,
    programs: seq<Program>,
    scheduleUsed: seq<bool>,
    scheduleIds: seq<Text>,
    schedules: seq<EntryRef>)

  predicate Shape(v: Views) {
    && |v.programUsed| == |v.programIds| == |v.programs| == MAX_PROGRAMS
    && |v.scheduleUsed| == |v.scheduleIds| == |v.schedules| == MAX_SCHEDULES
    && RefsInRange(v.schedules)
  }

  /** No slot in use. */
  function NoViews(): (v: Views)
    ensures Shape(v)
    ensures (forall i | 0 <= i < MAX_PROGRAMS :: !v.programUsed[i]) && (forall i | 0 <= i < MAX_SCHEDULES :: !v.scheduleUsed[i])
  {
    Views(NO_PROGRAM_IN_USE, seq(MAX_PROGRAMS, _ => []), seq(MAX_PROGRAMS, _ => Program([], [], 0)),
          NO_SCHEDULE_IN_USE, seq(MAX_SCHEDULES, _ => []), seq(MAX_SCHEDULES, _ => EntryRef(0, false, 0, 0, 0, 0)))
  }

  function StepsOf(steps: seq<StepConfiguration>): (r: seq<Step>)
    ensures |r| == |steps|
  {
    if steps == [] then []
    else StepsOf(steps[..|steps| - 1]) + [Step(CopyText(steps[|steps| - 1].zoneId), steps[|steps| - 1].durationMs)]
  }

  /** A program is known at run time by its display name, and waits no time after its last step. */
  function ProgramOf(p: ProgramConfiguration): Program {
    Program(CopyText(p.displayName), StepsOf(p.steps), 0)
  }

  function ProgramIds(programs: seq<ProgramConfiguration>): (ids: seq<Text>)
    ensures |ids| == |programs| && forall i | 0 <= i < |programs| :: ids[i] == programs[i].programId
  {
    seq(|programs|, i requires 0 <= i < |programs| => programs[i].programId)
  }

  function ScheduleIds(schedules: seq<ScheduleConfiguration>): (ids: seq<Text>)
    ensures |ids| == |schedules| && forall i | 0 <= i < |schedules| :: ids[i] == schedules[i].scheduleId
  {
    seq(|schedules|, i requires 0 <= i < |schedules| => schedules[i].scheduleId)
  }

  // ----- Rebuilding -----

  const NO_PROGRAM_IN_USE: seq<bool> := [false, false, false, false]
  const NO_SCHEDULE_IN_USE: seq<bool> :=
    [false, false, false, false, false, false, false, false, false, false, false, false, false, false, false, false]

  /** The loop over programs from `index` on: the table, the programs, and whether it got to the end. */
  function PlacePrograms(t: Table, programs: seq<Program>, configured: seq<ProgramConfiguration>, index: nat):
      (r: (Table, seq<Program>, bool))
    requires Shaped(t) && |programs| == |t.used| && index <= |configured|
    ensures Shaped(r.0) && |r.0.used| == |r.1| == |t.used|
    decreases |configured| - index
  {
    if index == |configured| then (t, programs, true)
    else
      match Claim(t.used, t.ids, configured[index].programId)
      case None => (t, programs, false)
      case Some(slot) =>
        PlacePrograms(Take(t, slot, configured[index].programId), programs[slot := ProgramOf(configured[index])], configured, index + 1)
  }

  /** The slots of the last configuration are given up only after the new one has claimed its own. */
  function RebuildPrograms(v: Views, configured: seq<ProgramConfiguration>): (r: (Views, bool))
    requires Shape(v)
    ensures Shape(r.0)
  {
    var (t, programs, complete) := PlacePrograms(Table(v.programUsed, v.programIds, NO_PROGRAM_IN_USE), v.programs, configured, 0);
    (v.(programUsed := if complete then t.inUse else t.used, programIds := t.ids, programs := programs), complete)
  }

  function ProgramIndexFrom(programs: seq<ProgramConfiguration>, id: Text, from: nat): (index: Option<nat>)
    requires from <= |programs|
    ensures index.Some? ==> from <= index.value < |programs| && programs[index.value].programId == id
    ensures index.None? ==> forall i | from <= i < |programs| :: programs[i].programId != id
    decreases |programs| - from
  {
    if from == |programs| then None else if programs[from].programId == id then Some(from) else ProgramIndexFrom(programs, id, from + 1)
  }

  function RefOf(s: ScheduleConfiguration, slot: nat, programSlot: nat): EntryRef {
    EntryRef(slot, s.enabled, s.weekdayMask, s.hour, s.minute, programSlot)
  }

  /** The slot of the program a schedule runs, if it is configured and placed. */
  function ProgramSlot(v: Views, c: IrrigationConfiguration, id: Text): (slot: Option<nat>)
    requires Shape(v)
    ensures slot.Some? ==> slot.value < MAX_PROGRAMS && v.programUsed[slot.value] && v.programIds[slot.value] == id
  {
    if ProgramIndexFrom(c.programs, id, 0).None? then None else SlotOf(v.programUsed, v.programIds, id)
  }

  function PlaceSchedules(t: Table, refs: seq<EntryRef>, v: Views, c: IrrigationConfiguration, index: nat):
      (r: (Table, seq<EntryRef>, bool))
    requires Shaped(t) && |refs| == |t.used| == MAX_SCHEDULES && RefsInRange(refs) && Shape(v)
    requires index <= |c.schedules| <= MAX_SCHEDULES
    ensures Shaped(r.0) && |r.1| == |r.0.used| == MAX_SCHEDULES && RefsInRange(r.1)
    decreases |c.schedules| - index
  {
    if index == |c.schedules| then (t, refs, true)
    else
      var s := c.schedules[index];
      var slot, programSlot := Claim(t.used, t.ids, s.scheduleId), ProgramSlot(v, c, s.programId);
      if slot.None? || programSlot.None? then (t, refs, false)
      else
        PlaceSchedules(Take(t, slot.value, s.scheduleId), refs[index := RefOf(s, slot.value, programSlot.value)], v, c, index + 1)
  }

  function RebuildSchedules(v: Views, c: IrrigationConfiguration): (r: Views)
    requires Shape(v) && |c.schedules| <= MAX_SCHEDULES
    ensures Shape(r) && r.programUsed == v.programUsed && r.programIds == v.programIds && r.programs == v.programs
  {
    var (t, refs, complete) := PlaceSchedules(Table(v.scheduleUsed, v.scheduleIds, NO_SCHEDULE_IN_USE), v.schedules, v, c, 0);
    v.(scheduleUsed := if complete then t.inUse else t.used, scheduleIds := t.ids, schedules := refs)
  }

  /** When the programs do not fit, the schedules are left as they are. */
  function Rebuild(v: Views, c: IrrigationConfiguration, rebuildPrograms: bool): (r: Views)
    requires Shape(v) && |c.schedules| <= MAX_SCHEDULES
    ensures Shape(r)
  {
    if !rebuildPrograms then RebuildSchedules(v, c)
    else
      var (p, complete) := RebuildPrograms(v, c.programs);
      if complete then RebuildSchedules(p, c) else p
  }

  // ----- Agreement with a configuration -----

  /** Exactly the configured ids have slots, one each. */
  predicate HoldsExactly(used: seq<bool>, ids: seq<Text>, wanted: seq<Text>)
    requires |used| == |ids|
  {
    && Coherent(used, ids)
    && (forall k | 0 <= k < |wanted| :: SlotOf(used, ids, wanted[k]).Some?)
    && (forall i | 0 <= i < |used| && used[i] :: ids[i] in wanted)
  }

  /** Wanted ids that had a slot keep it. */
  predicate KeepsSlots(used: seq<bool>, ids: seq<Text>, usedNow: seq<bool>, idsNow: seq<Text>, wanted: seq<Text>)
    requires |used| == |ids| && |usedNow| == |idsNow|
  {
    forall k | 0 <= k < |wanted| && SlotOf(used, ids, wanted[k]).Some? ::
      SlotOf(usedNow, idsNow, wanted[k]) == SlotOf(used, ids, wanted[k])
  }

  predicate ProgramsRefine(v: Views, c: IrrigationConfiguration)
    requires Shape(v)
  {
    && HoldsExactly(v.programUsed, v.programIds, ProgramIds(c.programs))
    && forall k | 0 <= k < |c.programs| ::
         v.programs[SlotOf(v.programUsed, v.programIds, c.programs[k].programId).value] == ProgramOf(c.programs[k])
  }

  predicate SchedulesRefine(v: Views, c: IrrigationConfiguration)
    requires Shape(v) && |c.schedules| <= MAX_SCHEDULES && ProgramsRefine(v, c)
  {
    && HoldsExactly(v.scheduleUsed, v.scheduleIds, ScheduleIds(c.schedules))
    && forall k | 0 <= k < |c.schedules| ::
         && SlotOf(v.programUsed, v.programIds, c.schedules[k].programId).Some?
         && v.schedules[k] == RefOf(c.schedules[k], SlotOf(v.scheduleUsed, v.scheduleIds, c.schedules[k].scheduleId).value,
                                    SlotOf(v.programUsed, v.programIds, c.schedules[k].programId).value)
  }

  /** Every configured program and schedule has exactly one slot, which holds its data, and nothing else has one. */
  predicate Refines(v: Views, c: IrrigationConfiguration) {
    Shape(v) && |c.schedules| <= MAX_SCHEDULES && ProgramsRefine(v, c) && SchedulesRefine(v, c)
  }

  // ----- Programs -----

  lemma {:induction false} PlaceProgramsIsPlaceAll(t: Table, programs: seq<Program>, configured: seq<ProgramConfiguration>, index: nat)
    requires Shaped(t) && |programs| == |t.used| && index <= |configured|
    ensures var (after, written, complete) := PlacePrograms(t, programs, configured, index);
            var (same, slots) := PlaceAll(t, ProgramIds(configured)[index..]);
            && after == same && (complete <==> |slots| == |configured| - index)
            && (forall i | 0 <= i < |programs| && i !in slots :: written[i] == programs[i])
            && (DistinctSlots(slots) ==> forall k | 0 <= k < |slots| :: written[slots[k]] == ProgramOf(configured[index + k]))
    decreases |configured| - index
  {
    hide Claim, Take, ProgramOf;
    var wanted := ProgramIds(configured)[index..];
    if index < |configured| {
      var id := configured[index].programId;
      assert wanted[0] == id && wanted[1..] == ProgramIds(configured)[index + 1..];
      var claimed := Claim(t.used, t.ids, id);
      if claimed.Some? {
        var first, written := Take(t, claimed.value, id), programs[claimed.value := ProgramOf(configured[index])];
        PlaceProgramsIsPlaceAll(first, written, configured, index + 1);
        WrittenStep(programs, written, PlacePrograms(first, written, configured, index + 1).1, configured, index, claimed.value,
                    PlaceAll(first, wanted[1..]).1);
      }
    }
  }

  predicate DistinctSlots(slots: seq<nat>) {
    forall j, k | 0 <= j < k < |slots| :: slots[j] != slots[k]
  }

  lemma WrittenStep(programs: seq<Program>, first: seq<Program>, written: seq<Program>, configured: seq<ProgramConfiguration>,
                    index: nat, slot: nat, slots: seq<nat>)
    requires |written| == |programs| && slot < |programs| && index < |configured| && first == programs[slot := ProgramOf(configured[index])]
    requires |slots| <= |configured| - index - 1 && forall k | 0 <= k < |slots| :: slots[k] < |programs|
    requires forall i | 0 <= i < |programs| && i !in slots :: written[i] == first[i]
    requires DistinctSlots(slots) ==> forall k | 0 <= k < |slots| :: written[slots[k]] == ProgramOf(configured[index + 1 + k])
    ensures var all := [slot] + slots;
            && (forall i | 0 <= i < |programs| && i !in all :: written[i] == programs[i])
            && (DistinctSlots(all) ==> forall k | 0 <= k < |all| :: written[all[k]] == ProgramOf(configured[index + k]))
  {
    hide ProgramOf;
    var all := [slot] + slots;
    assert all[0] == slot && forall k | 0 <= k < |slots| :: all[k + 1] == slots[k];
    if DistinctSlots(all) {
      forall j, k | 0 <= j < k < |slots| ensures slots[j] != slots[k] {
        assert all[j + 1] != all[k + 1];
      }
      forall j | 0 <= j < |slots| ensures slots[j] != slot {
        assert all[j + 1] != all[0];
      }
      forall k | 0 <= k < |all| ensures written[all[k]] == ProgramOf(configured[index + k]) {
        if k > 0 { assert all[k] == slots[k - 1]; }
      }
    }
  }

  /** Slots claimed for distinct ids are distinct. */
  lemma PlacedSlotsDistinct(t: Table, wanted: seq<Text>, after: Table, slots: seq<nat>)
    requires Shaped(t) && Shaped(after) && |after.used| == |t.used| && Placed(t, wanted, after, slots) && Distinct(wanted)
    ensures DistinctSlots(slots)
  {
    forall j, k | 0 <= j < k < |slots| ensures slots[j] != slots[k] {
      assert after.ids[slots[j]] == wanted[j] && after.ids[slots[k]] == wanted[k];
    }
  }

  /** After a complete placement the slots in use are those of the wanted ids. */
  lemma PlacedHolds(t: Table, wanted: seq<Text>, after: Table, slots: seq<nat>)
    requires Shaped(t) && Shaped(after) && |after.used| == |t.used| && Placed(t, wanted, after, slots)
    requires forall i | 0 <= i < |t.used| :: !t.inUse[i]
    ensures HoldsExactly(after.inUse, after.ids, wanted)
    ensures forall k | 0 <= k < |wanted| :: SlotOf(after.inUse, after.ids, wanted[k]) == Some(slots[k])
    ensures KeepsSlots(t.used, t.ids, after.inUse, after.ids, wanted)
  {
    assert forall i | 0 <= i < |t.used| && after.inUse[i] :: after.used[i];
    forall k | 0 <= k < |wanted| ensures SlotOf(after.inUse, after.ids, wanted[k]) == Some(slots[k]) {
      assert slots[k] in slots && after.inUse[slots[k]] && after.ids[slots[k]] == wanted[k];
      SlotIsUnique(after.inUse, after.ids, slots[k]);
    }
    forall k | 0 <= k < |wanted| && SlotOf(t.used, t.ids, wanted[k]).Some? ensures SlotOf(t.used, t.ids, wanted[k]) == Some(slots[k]) {
      SlotIsUnique(after.used, after.ids, SlotOf(t.used, t.ids, wanted[k]).value);
      SlotIsUnique(after.used, after.ids, slots[k]);
    }
    forall i | 0 <= i < |t.used| && after.inUse[i] ensures after.ids[i] in wanted {
      var k :| 0 <= k < |slots| && slots[k] == i;
      assert after.ids[i] == wanted[k];
    }
  }

  lemma ValidIds(c: IrrigationConfiguration, boardZones: seq<Zone>)
    requires Valid(c, boardZones)
    ensures Distinct(ProgramIds(c.programs)) && Short(ProgramIds(c.programs))
    ensures Distinct(ScheduleIds(c.schedules)) && Short(ScheduleIds(c.schedules))
    ensures forall k | 0 <= k < |c.schedules| :: ProgramIndexFrom(c.programs, c.schedules[k].programId, 0).Some?
    ensures |c.schedules| <= MAX_SCHEDULES && |c.programs| <= MAX_PROGRAMS
  {
    forall k | 0 <= k < |c.programs| ensures |c.programs[k].programId| < TEXT_SIZE {
      assert ValidProgram(c.programs[k], boardZones);
    }
    forall k | 0 <= k < |c.schedules|
      ensures |c.schedules[k].scheduleId| < TEXT_SIZE && ProgramIndexFrom(c.programs, c.schedules[k].programId, 0).Some?
    {
      assert ValidSchedule(c.schedules[k], c.programs);
    }
  }

  /** What the program half of a rebuild computes. */
  lemma RebuildProgramsIs(v: Views, configured: seq<ProgramConfiguration>)
    requires Shape(v)
    ensures var (r, complete) := RebuildPrograms(v, configured);
            var (after, slots) := PlaceAll(Table(v.programUsed, v.programIds, NO_PROGRAM_IN_USE), ProgramIds(configured));
            && (complete <==> |slots| == |configured|)
            && r.programIds == after.ids && r.programUsed == (if complete then after.inUse else after.used)
            && (DistinctSlots(slots) ==> forall k | 0 <= k < |slots| :: r.programs[slots[k]] == ProgramOf(configured[k]))
            && r.scheduleUsed == v.scheduleUsed && r.scheduleIds == v.scheduleIds && r.schedules == v.schedules
  {
    hide ProgramOf, PlacePrograms, PlaceAll;
    PlaceProgramsIsPlaceAll(Table(v.programUsed, v.programIds, NO_PROGRAM_IN_USE), v.programs, configured, 0);
    assert ProgramIds(configured)[0..] == ProgramIds(configured);
  }

  lemma RebuildProgramsPlaced(v: Views, c: IrrigationConfiguration, boardZones: seq<Zone>)
    requires Shape(v) && Valid(c, boardZones) && Coherent(v.programUsed, v.programIds)
    requires Room(v.programUsed, v.programIds, ProgramIds(c.programs))
    ensures var (r, complete) := RebuildPrograms(v, c.programs);
            && complete && ProgramsRefine(r, c)
            && KeepsSlots(v.programUsed, v.programIds, r.programUsed, r.programIds, ProgramIds(c.programs))
  {
    hide Valid, Room, ProgramOf, RebuildPrograms, PlaceAll, Coherent;
    var wanted := ProgramIds(c.programs);
    var t := Table(v.programUsed, v.programIds, NO_PROGRAM_IN_USE);
    ValidIds(c, boardZones);
    RebuildProgramsIs(v, c.programs);
    var (after, slots) := PlaceAll(t, wanted);
    PlaceAllPlaces(t, wanted);
    PlacedSlotsDistinct(t, wanted, after, slots);
    PlacedHolds(t, wanted, after, slots);
  }

  lemma RebuildProgramsStuck(v: Views, c: IrrigationConfiguration, boardZones: seq<Zone>)
    requires Shape(v) && Valid(c, boardZones) && Coherent(v.programUsed, v.programIds)
    requires !Room(v.programUsed, v.programIds, ProgramIds(c.programs))
    ensures var (r, complete) := RebuildPrograms(v, c.programs);
            !complete && !HoldsExactly(r.programUsed, r.programIds, ProgramIds(c.programs))
  {
    hide Valid, Room, RebuildPrograms, PlaceAll, Coherent;
    ValidIds(c, boardZones);
    RebuildProgramsIs(v, c.programs);
    PlaceAllStuck(Table(v.programUsed, v.programIds, NO_PROGRAM_IN_USE), ProgramIds(c.programs));
  }

  /** Rebuilding the programs succeeds exactly when their ids and those in use fit into the table. */
  lemma RebuildProgramsRefines(v: Views, c: IrrigationConfiguration, boardZones: seq<Zone>)
    requires Shape(v) && Valid(c, boardZones) && Coherent(v.programUsed, v.programIds)
    ensures var (r, complete) := RebuildPrograms(v, c.programs);
            var fits := Room(v.programUsed, v.programIds, ProgramIds(c.programs));
            && (fits ==> complete && ProgramsRefine(r, c) &&
                         KeepsSlots(v.programUsed, v.programIds, r.programUsed, r.programIds, ProgramIds(c.programs)))
            && (!fits ==> !complete && !HoldsExactly(r.programUsed, r.programIds, ProgramIds(c.programs)))
  {
    hide Valid, Room, RebuildPrograms, Coherent, HoldsExactly, KeepsSlots, ProgramsRefine;
    if Room(v.programUsed, v.programIds, ProgramIds(c.programs)) {
      RebuildProgramsPlaced(v, c, boardZones);
    } else {
      RebuildProgramsStuck(v, c, boardZones);
    }
  }

  // ----- Schedules -----

  /** Every schedule's program has a slot. */
  predicate ProgramsFound(v: Views, c: IrrigationConfiguration)
    requires Shape(v)
  {
    forall k | 0 <= k < |c.schedules| :: ProgramSlot(v, c, c.schedules[k].programId).Some?
  }

  lemma {:induction false} PlaceSchedulesIsPlaceAll(t: Table, refs: seq<EntryRef>, v: Views, c: IrrigationConfiguration, index: nat)
    requires Shaped(t) && |refs| == |t.used| == MAX_SCHEDULES && RefsInRange(refs) && Shape(v)
    requires index <= |c.schedules| <= MAX_SCHEDULES && ProgramsFound(v, c)
    ensures var (after, written, complete) := PlaceSchedules(t, refs, v, c, index);
            var (same, slots) := PlaceAll(t, ScheduleIds(c.schedules)[index..]);
            && after == same && (complete <==> |slots| == |c.schedules| - index)
            && (forall i | 0 <= i < index :: written[i] == refs[i])
            && (forall k | 0 <= k < |slots| :: written[index + k] ==
                  RefOf(c.schedules[index + k], slots[k], ProgramSlot(v, c, c.schedules[index + k].programId).value))
    decreases |c.schedules| - index
  {
    hide Claim, Take, ProgramSlot, RefOf, Shape, RefsInRange;
    var wanted := ScheduleIds(c.schedules)[index..];
    if index < |c.schedules| {
      var s := c.schedules[index];
      assert wanted[0] == s.scheduleId && wanted[1..] == ScheduleIds(c.schedules)[index + 1..];
      var slot := Claim(t.used, t.ids, s.scheduleId);
      if slot.Some? {
        var ref := RefOf(s, slot.value, ProgramSlot(v, c, s.programId).value);
        RefOfInRange(v, c, refs, index, slot.value);
        PlaceSchedulesIsPlaceAll(Take(t, slot.value, s.scheduleId), refs[index := ref], v, c, index + 1);
      }
    }
  }

  lemma RefOfInRange(v: Views, c: IrrigationConfiguration, refs: seq<EntryRef>, index: nat, slot: nat)
    requires Shape(v) && index < |c.schedules| <= MAX_SCHEDULES == |refs| && RefsInRange(refs) && slot < MAX_SCHEDULES
    requires ProgramSlot(v, c, c.schedules[index].programId).Some?
    ensures RefsInRange(refs[index := RefOf(c.schedules[index], slot, ProgramSlot(v, c, c.schedules[index].programId).value)])
  {
  }

  /** With the programs in place, rebuilding the schedules succeeds exactly when their ids and those in use fit. */
  lemma RebuildSchedulesRefines(v: Views, c: IrrigationConfiguration, boardZones: seq<Zone>)
    requires Shape(v) && Valid(c, boardZones) && Coherent(v.scheduleUsed, v.scheduleIds) && ProgramsRefine(v, c)
    ensures var r := RebuildSchedules(v, c);
            && (Refines(r, c) <==> Room(v.scheduleUsed, v.scheduleIds, ScheduleIds(c.schedules)))
            && (Refines(r, c) ==> KeepsSlots(v.scheduleUsed, v.scheduleIds, r.scheduleUsed, r.scheduleIds, ScheduleIds(c.schedules)))
  {
    hide Valid, Room, PlaceSchedules, PlaceAll, Coherent, RefOf;
    var wanted := ScheduleIds(c.schedules);
    var t := Table(v.scheduleUsed, v.scheduleIds, NO_SCHEDULE_IN_USE);
    ValidIds(c, boardZones);
    SchedulesFindPrograms(v, c);
    PlaceSchedulesIsPlaceAll(t, v.schedules, v, c, 0);
    assert wanted[0..] == wanted;
    var (after, slots) := PlaceAll(t, wanted);
    var r := RebuildSchedules(v, c);
    if Room(v.scheduleUsed, v.scheduleIds, wanted) {
      PlaceAllPlaces(t, wanted);
      PlacedHolds(t, wanted, after, slots);
    } else {
      PlaceAllStuck(t, wanted);
      assert !HoldsExactly(r.scheduleUsed, r.scheduleIds, wanted);
    }
  }

  lemma SchedulesFindPrograms(v: Views, c: IrrigationConfiguration)
    requires Shape(v) && ProgramsRefine(v, c)
    requires forall k | 0 <= k < |c.schedules| :: ProgramIndexFrom(c.programs, c.schedules[k].programId, 0).Some?
    ensures ProgramsFound(v, c)
    ensures forall k | 0 <= k < |c.schedules| ::
              ProgramSlot(v, c, c.schedules[k].programId) == SlotOf(v.programUsed, v.programIds, c.schedules[k].programId)
  {
    forall k | 0 <= k < |c.schedules| ensures ProgramSlot(v, c, c.schedules[k].programId).Some? {
      var i := ProgramIndexFrom(c.programs, c.schedules[k].programId, 0).value;
      assert ProgramIds(c.programs)[i] == c.schedules[k].programId;
    }
  }

  // ----- The main results -----

  /**
   After a rebuild the views agree with the configuration, if and only if the ids in use and the configured ids fit together
   into the tables of programs and of schedules; ids that stay configured keep their slots.
   */
  lemma RebuildRefines(v: Views, c: IrrigationConfiguration, boardZones: seq<Zone>)
    requires Shape(v) && Valid(c, boardZones)
    requires Coherent(v.programUsed, v.programIds) && Coherent(v.scheduleUsed, v.scheduleIds)
    ensures |c.schedules| <= MAX_SCHEDULES
    ensures Refines(Rebuild(v, c, true), c) <==>
      Room(v.programUsed, v.programIds, ProgramIds(c.programs)) && Room(v.scheduleUsed, v.scheduleIds, ScheduleIds(c.schedules))
    ensures var r := Rebuild(v, c, true);
            Refines(r, c) ==>
              && KeepsSlots(v.programUsed, v.programIds, r.programUsed, r.programIds, ProgramIds(c.programs))
              && KeepsSlots(v.scheduleUsed, v.scheduleIds, r.scheduleUsed, r.scheduleIds, ScheduleIds(c.schedules))
  {
    hide Room, Coherent, RebuildSchedules, ProgramsRefine, SchedulesRefine, KeepsSlots;
    var (p, complete) := RebuildPrograms(v, c.programs);
    RebuildProgramsRefines(v, c, boardZones);
    if Room(v.programUsed, v.programIds, ProgramIds(c.programs)) {
      RebuildSchedulesRefines(p, c, boardZones);
    } else {
      NotRefined(p, c);
    }
  }

  lemma NotRefined(v: Views, c: IrrigationConfiguration)
    requires Shape(v) && !HoldsExactly(v.programUsed, v.programIds, ProgramIds(c.programs))
    ensures !Refines(v, c)
  {
  }

  /** No slot in use is given another id, whether or not everything fits: an entry still reads the id it was made with. */
  lemma {:induction false} PlaceAllOverwritesNothing(t: Table, wanted: seq<Text>)
    requires Shaped(t) && Short(wanted)
    ensures var after := PlaceAll(t, wanted).0;
            forall i | 0 <= i < |t.used| && t.used[i] :: after.used[i] && after.ids[i] == t.ids[i]
    decreases |wanted|
  {
    if wanted != [] {
      var claimed := Claim(t.used, t.ids, wanted[0]);
      if claimed.Some? {
        var first := Take(t, claimed.value, wanted[0]);
        assert CopyText(wanted[0]) == wanted[0];
        assert forall i | 0 <= i < |t.used| && t.used[i] :: first.used[i] && first.ids[i] == t.ids[i];
        PlaceAllOverwritesNothing(first, wanted[1..]);
      }
    }
  }

  lemma RebuildKeepsLiveIds(v: Views, c: IrrigationConfiguration, boardZones: seq<Zone>, rebuildPrograms: bool)
    requires Shape(v) && Valid(c, boardZones) && Coherent(v.programUsed, v.programIds)
    requires rebuildPrograms || ProgramsRefine(v, c)
    ensures |c.schedules| <= MAX_SCHEDULES
    ensures var r := Rebuild(v, c, rebuildPrograms);
            && (forall i | 0 <= i < MAX_SCHEDULES && v.scheduleUsed[i] :: r.scheduleIds[i] == v.scheduleIds[i])
            && (forall i | 0 <= i < MAX_PROGRAMS && v.programUsed[i] :: r.programIds[i] == v.programIds[i])
  {
    hide Valid, Room, RebuildPrograms, PlaceSchedules, PlaceAll, Coherent;
    ValidIds(c, boardZones);
    var p := if rebuildPrograms then RebuildPrograms(v, c.programs).0 else v;
    if rebuildPrograms {
      RebuildProgramsIs(v, c.programs);
      PlaceAllOverwritesNothing(Table(v.programUsed, v.programIds, NO_PROGRAM_IN_USE), ProgramIds(c.programs));
      RebuildProgramsRefines(v, c, boardZones);
    }
    if !rebuildPrograms || RebuildPrograms(v, c.programs).1 {
      SchedulesFindPrograms(p, c);
      var t := Table(p.scheduleUsed, p.scheduleIds, NO_SCHEDULE_IN_USE);
      PlaceSchedulesIsPlaceAll(t, p.schedules, p, c, 0);
      assert ScheduleIds(c.schedules)[0..] == ScheduleIds(c.schedules);
      PlaceAllOverwritesNothing(t, ScheduleIds(c.schedules));
    }
  }

  // ----- Going back -----

  /** Whether or not the wanted ids all found slots, the ids that had slots before fit again. */
  lemma TableGoesBack(t: Table, wanted: seq<Text>, held: seq<Text>)
    requires Shaped(t) && HoldsExactly(t.used, t.ids, held) && Distinct(wanted) && Short(wanted)
    requires forall i | 0 <= i < |t.used| :: !t.inUse[i]
    ensures var (after, slots) := PlaceAll(t, wanted);
            var used := if |slots| == |wanted| then after.inUse else after.used;
            Coherent(used, after.ids) && Room(used, after.ids, held)
  {
    hide PlaceAll, UsedIds, IdsOf, Coherent;
    var (after, slots) := PlaceAll(t, wanted);
    HeldIds(t.used, t.ids, held);
    if Room(t.used, t.ids, wanted) {
      PlaceAllPlaces(t, wanted);
      PlacedHolds(t, wanted, after, slots);
      HeldIds(after.inUse, after.ids, wanted);
      assert IdsOf(wanted) + IdsOf(held) == IdsOf(held) + IdsOf(wanted);
    } else {
      PlaceAllStuck(t, wanted);
      PlaceAllCoherent(t, wanted);
      PlaceAllOverwritesNothing(t, wanted);
      UsedStay(t.used, t.ids, after.used, after.ids);
      UsedCount(after.used, after.ids);
      assert UsedIds(after.used, after.ids) + IdsOf(held) == UsedIds(after.used, after.ids);
    }
  }

  lemma UsedStay(used: seq<bool>, ids: seq<Text>, after: seq<bool>, afterIds: seq<Text>)
    requires |used| == |ids| == |after| == |afterIds|
    requires forall i | 0 <= i < |used| && used[i] :: after[i] && afterIds[i] == ids[i]
    ensures UsedIds(used, ids) <= UsedIds(after, afterIds)
  {
  }

  lemma HeldIds(used: seq<bool>, ids: seq<Text>, wanted: seq<Text>)
    requires |used| == |ids| && HoldsExactly(used, ids, wanted)
    ensures UsedIds(used, ids) == IdsOf(wanted) && Coherent(used, ids)
  {
    forall x | x in IdsOf(wanted) ensures x in UsedIds(used, ids) {
      var k :| 0 <= k < |wanted| && wanted[k] == x;
      assert SlotOf(used, ids, wanted[k]).Some?;
    }
    forall x | x in UsedIds(used, ids) ensures x in IdsOf(wanted) {
      var i :| 0 <= i < |used| && used[i] && ids[i] == x;
      var k :| 0 <= k < |wanted| && wanted[k] == ids[i];
    }
  }

  lemma {:induction false} PlaceAllCoherent(t: Table, wanted: seq<Text>)
    requires Shaped(t) && Coherent(t.used, t.ids) && Short(wanted)
    ensures var after := PlaceAll(t, wanted).0; Coherent(after.used, after.ids)
    decreases |wanted|
  {
    hide Claim, Take, Coherent, UsedIds;
    if wanted != [] && Claim(t.used, t.ids, wanted[0]).Some? {
      TakeClaimed(t, wanted[0]);
      PlaceAllCoherent(Take(t, Claim(t.used, t.ids, wanted[0]).value, wanted[0]), wanted[1..]);
    }
  }

  /** What the schedule half of a rebuild leaves in the table of ids, where every schedule finds its program. */
  lemma RebuildSchedulesIs(v: Views, c: IrrigationConfiguration)
    requires Shape(v) && |c.schedules| <= MAX_SCHEDULES && ProgramsFound(v, c)
    ensures var r := RebuildSchedules(v, c);
            var (after, slots) := PlaceAll(Table(v.scheduleUsed, v.scheduleIds, NO_SCHEDULE_IN_USE), ScheduleIds(c.schedules));
            r.scheduleIds == after.ids && r.scheduleUsed == if |slots| == |c.schedules| then after.inUse else after.used
  {
    hide PlaceSchedules, PlaceAll, ProgramSlot, RefOf;
    PlaceSchedulesIsPlaceAll(Table(v.scheduleUsed, v.scheduleIds, NO_SCHEDULE_IN_USE), v.schedules, v, c, 0);
    assert ScheduleIds(c.schedules)[0..] == ScheduleIds(c.schedules);
  }

  /** After any rebuild, even one that stopped half way, the views can be made to agree with the old configuration again. */
  lemma RebuildGoesBack(v: Views, a: IrrigationConfiguration, b: IrrigationConfiguration, boardZones: seq<Zone>)
    requires Refines(v, a) && Valid(a, boardZones) && Valid(b, boardZones)
    ensures |b.schedules| <= MAX_SCHEDULES && |a.schedules| <= MAX_SCHEDULES
    ensures var changed := a.programs != b.programs; Refines(Rebuild(Rebuild(v, b, changed), a, changed), a)
  {
    hide Valid, Room, Coherent, HoldsExactly, RebuildPrograms, RebuildSchedules, PlaceAll;
    ValidIds(a, boardZones);
    ValidIds(b, boardZones);
    var w := Rebuild(v, b, a.programs != b.programs);
    HeldIds(v.programUsed, v.programIds, ProgramIds(a.programs));
    HeldIds(v.scheduleUsed, v.scheduleIds, ScheduleIds(a.schedules));
    HeldFits(v.scheduleUsed, v.scheduleIds, ScheduleIds(a.schedules));
    TableGoesBack(Table(v.scheduleUsed, v.scheduleIds, NO_SCHEDULE_IN_USE), ScheduleIds(b.schedules), ScheduleIds(a.schedules));
    if a.programs == b.programs {
      assert ProgramsRefine(v, b);
      SchedulesFindPrograms(v, b);
      RebuildSchedulesIs(v, b);
      assert ProgramsRefine(w, a);
      RebuildSchedulesRefines(w, a, boardZones);
    } else {
      var (p, complete) := RebuildPrograms(v, b.programs);
      RebuildProgramsIs(v, b.programs);
      RebuildProgramsRefines(v, b, boardZones);
      TableGoesBack(Table(v.programUsed, v.programIds, NO_PROGRAM_IN_USE), ProgramIds(b.programs), ProgramIds(a.programs));
      if complete {
        SchedulesFindPrograms(p, b);
        RebuildSchedulesIs(p, b);
      }
      RebuildRefines(w, a, boardZones);
    }
  }

  lemma HeldFits(used: seq<bool>, ids: seq<Text>, held: seq<Text>)
    requires |used| == |ids| && HoldsExactly(used, ids, held)
    ensures Room(used, ids, held)
  {
    hide UsedIds, IdsOf;
    HeldIds(used, ids, held);
    UsedCount(used, ids);
    assert IdsOf(held) + IdsOf(held) == IdsOf(held);
  }

  // ----- What agreement means, field by field -----

  lemma {:induction false} StepsOfAre(steps: seq<StepConfiguration>)
    ensures forall j | 0 <= j < |steps| :: StepsOf(steps)[j] == Step(CopyText(steps[j].zoneId), steps[j].durationMs)
  {
    if steps != [] {
      var init := steps[..|steps| - 1];
      StepsOfAre(init);
      assert forall j | 0 <= j < |init| :: steps[j] == init[j] && StepsOf(steps)[j] == StepsOf(init)[j];
    }
  }

  /** Every configured program is in exactly one slot, with its name, its steps in order, and no final delay. */
  lemma SlotsHoldPrograms(v: Views, c: IrrigationConfiguration, boardZones: seq<Zone>, k: nat)
    requires Refines(v, c) && Valid(c, boardZones) && k < |c.programs|
    ensures exists slot :: 0 <= slot < 4 && v.programUsed[slot] && v.programIds[slot] == c.programs[k].programId
    ensures forall slot | 0 <= slot < 4 && v.programUsed[slot] && v.programIds[slot] == c.programs[k].programId ::
              var p := v.programs[slot];
              && p.id == c.programs[k].displayName && p.postDelay == 0 && |p.steps| == |c.programs[k].steps|
              && forall j | 0 <= j < |p.steps| ::
                   p.steps[j].zone == c.programs[k].steps[j].zoneId && p.steps[j].duration == c.programs[k].steps[j].durationMs
    ensures forall i, j | 0 <= i < j < 4 && v.programUsed[i] && v.programUsed[j] :: v.programIds[i] != v.programIds[j]
    ensures forall i | 0 <= i < 4 && v.programUsed[i] :: exists n :: 0 <= n < |c.programs| && c.programs[n].programId == v.programIds[i]
  {
    var configured := c.programs[k];
    assert ProgramIds(c.programs)[k] == configured.programId;
    assert ValidProgram(configured, boardZones);
    StepsOfAre(configured.steps);
    assert forall j | 0 <= j < |configured.steps| :: ValidStep(configured.steps[j], boardZones);
    var slot := SlotOf(v.programUsed, v.programIds, configured.programId).value;
    assert 0 <= slot < 4 && v.programUsed[slot] && v.programIds[slot] == configured.programId;
    forall other | 0 <= other < 4 && v.programUsed[other] && v.programIds[other] == configured.programId ensures other == slot {
      SlotIsUnique(v.programUsed, v.programIds, other);
    }
    forall i | 0 <= i < 4 && v.programUsed[i] ensures exists n :: 0 <= n < |c.programs| && c.programs[n].programId == v.programIds[i] {
      var n :| 0 <= n < |c.programs| && ProgramIds(c.programs)[n] == v.programIds[i];
      assert c.programs[n].programId == v.programIds[i];
    }
  }
}
