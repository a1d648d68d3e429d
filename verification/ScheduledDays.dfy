/** On which days a schedule is handled: exactly those on which its minute ticks while it is enabled. */
module ScheduledDays {
  import opened Bytes
  import opened Common
  import opened Configuration
  import opened RuntimeStates
  import opened Plants
  import opened ServiceRuns
  import ProgramOperations
  import opened Schedules
  import opened SchedulerServices
  import opened SchedulerRuns
  import opened RuntimeViews
  import opened SlotStore
  import opened ManagerOperations
  import opened ManagerRuns
  import opened RunRecords
  import opened MutationMeanings
  import opened ManagedScheduling

  // ----- Days of the week -----

  /** The mask of a set of weekdays, the first of them worth 1 and every other twice the one before. */
  function MaskOf(days: seq<bool>): nat {
    if days == [] then 0 else (if days[0] then 1 else 0) + 2 * MaskOf(days[1..])
  }

  function Halved(n: nat, times: nat): nat {
    if times == 0 then n else Halved(n / 2, times - 1)
  }

  lemma {:induction false} BitOfMask(days: seq<bool>, weekday: nat)
    requires weekday < |days|
    ensures Halved(MaskOf(days), weekday) % 2 == 1 <==> days[weekday]
    decreases weekday
  {
    if weekday > 0 {
      assert MaskOf(days) / 2 == MaskOf(days[1..]);
      BitOfMask(days[1..], weekday - 1);
    }
  }

  lemma HalvedIsDivided(mask: byte)
    ensures Halved(mask, 0) == mask && Halved(mask, 1) == mask / 2 && Halved(mask, 2) == mask / 4 && Halved(mask, 3) == mask / 8
    ensures Halved(mask, 4) == mask / 16 && Halved(mask, 5) == mask / 32 && Halved(mask, 6) == mask / 64
  {
    var q1 := mask / 2;
    var q2 := q1 / 2;
    var q3 := q2 / 2;
    var q4 := q3 / 2;
    var q5 := q4 / 2;
    assert q2 == mask / 4 && q3 == mask / 8 && q4 == mask / 16 && q5 == mask / 32 && q5 / 2 == mask / 64;
    assert Halved(q5, 1) == Halved(q5 / 2, 0) && Halved(q4, 1) == q5;
    assert Halved(q3, 1) == q4 && Halved(q3, 2) == Halved(q4, 1) && Halved(q3, 3) == Halved(q4, 2) && Halved(q4, 2) == Halved(q5, 1);
    assert Halved(mask, 3) == Halved(q1, 2) && Halved(q1, 2) == Halved(q2, 1) && Halved(q2, 1) == q3;
    assert Halved(mask, 4) == Halved(q1, 3) && Halved(q1, 3) == Halved(q2, 2) && Halved(q2, 2) == Halved(q3, 1);
    assert Halved(mask, 5) == Halved(q1, 4) && Halved(q1, 4) == Halved(q2, 3) && Halved(q2, 3) == Halved(q3, 2);
    assert Halved(mask, 6) == Halved(q1, 5) && Halved(q1, 5) == Halved(q2, 4) && Halved(q2, 4) == Halved(q3, 3);
  }

  /** A weekday is in the mask exactly when it is one of the days. */
  lemma WeekdayBit(days: seq<bool>, mask: byte, weekday: byte)
    requires |days| == 7 && mask == MaskOf(days) && weekday < 7
    ensures OnWeekday(mask, weekday) <==> days[weekday]
  {
    hide MaskOf, Halved;
    BitOfMask(days, weekday);
    HalvedIsDivided(mask);
  }

  /** Every acceptable mask is the mask of some days of the week, and of no others. */
  lemma MaskHasDays(mask: byte) returns (days: seq<bool>)
    requires 1 <= mask <= 127
    ensures |days| == 7 && MaskOf(days) == mask
    ensures forall other: seq<bool> | |other| == 7 && MaskOf(other) == mask :: other == days
  {
    days := BitsOf(mask, 7);
    HalvedIsDivided(mask);
    HalvedOnce(mask, 6);
    MaskOfBits(mask, 7);
    forall other: seq<bool> | |other| == 7 && MaskOf(other) == mask ensures other == days {
      SameMask(other, days);
    }
  }

  function BitsOf(n: nat, width: nat): (bits: seq<bool>)
    ensures |bits| == width
  {
    if width == 0 then [] else [n % 2 == 1] + BitsOf(n / 2, width - 1)
  }

  lemma {:induction false} HalvedOnce(n: nat, times: nat)
    ensures Halved(n, times + 1) == Halved(n, times) / 2
    decreases times
  {
    if times > 0 { HalvedOnce(n / 2, times - 1); }
  }

  /** A number that halving makes vanish is the mask of its bits. */
  lemma {:induction false} MaskOfBits(n: nat, width: nat)
    requires Halved(n, width) == 0
    ensures MaskOf(BitsOf(n, width)) == n
    decreases width
  {
    if width > 0 {
      assert BitsOf(n, width)[1..] == BitsOf(n / 2, width - 1);
      MaskOfBits(n / 2, width - 1);
    }
  }

  lemma {:induction false} SameMask(left: seq<bool>, right: seq<bool>)
    requires |left| == |right| && MaskOf(left) == MaskOf(right)
    ensures left == right
  {
    if left != [] {
      SameMask(left[1..], right[1..]);
      assert left == [left[0]] + left[1..] && right == [right[0]] + right[1..];
    }
  }

  // ----- Which lists are taken over -----

  /** A list is taken over as a whole if it has room, times of day, days of the week and different ids, and otherwise not at all. */
  lemma ConfigureTakesOver(live: seq<Entry>, table: SchedulerRuntime, entries: seq<Entry>)
    ensures var (now, after, result) := Configure(live, table, entries);
            if && |entries| <= 16
               && (forall e | e in entries :: 1 <= e.weekdayMask <= 127 && e.hour <= 23 && e.minute <= 59)
               && (forall i, j | 0 <= i < |entries| && 0 <= j < |entries| && entries[i].id == entries[j].id :: i == j)
            then now == entries && result == Ok && after.count == |entries| && after.occurrences[|entries|..] == table.occurrences[|entries|..]
            else (now, after, result) == (live, table, Rejected)
  {
    hide Preserved, OrNever;
    if EntriesAcceptable(entries) {
      assert forall e | e in entries :: EntryValid(e);
    } else if (forall e | e in entries :: EntryValid(e)) && |entries| <= 16 {
      assert !DistinctIds(entries);
    }
  }

  // ----- One tick -----

  /** A time of the week that is one. */
  predicate ClockTime(time: SchedulerTime) {
    time.weekday <= 6 && time.hour <= 23 && time.minute <= 59
  }

  /** The number of a day since the first week. */
  function DayNumber(time: SchedulerTime): nat {
    7 * time.week + time.weekday
  }

  /**
   A tick handles an entry if and only if the entry is enabled, the weekday is one of its days, its hour and minute are those of
   the tick, and it was not handled on that day before; an impossible time is refused and changes nothing.
   */
  lemma TickHandlesExactly(env: Environment, c: ProgramOperations.Controller, entries: seq<Entry>, programs: seq<Program>, time: SchedulerTime, k: nat,
                           days: seq<bool>)
    requires Fits(c, entries, programs) && k < |entries| && DistinctIds(entries)
    requires |days| == 7 && entries[k].weekdayMask == MaskOf(days) && entries[k].hour <= 23 && entries[k].minute <= 59
    ensures var (d, log, result) := Process(env, c, entries, programs, time);
            var rows, e := c.plant.store.scheduler.occurrences, entries[k];
            if !ClockTime(time) then (d, log, result) == (c, [], Rejected)
            else
              var handled := e.enabled && days[time.weekday] && e.hour == time.hour && e.minute == time.minute &&
                             rows[k].last != DayNumber(time);
              && result == Ok
              && DaysOf(log, e.id) == (if handled then [DayNumber(time)] else [])
              && (handled ==> d.plant.store.scheduler.occurrences[k].last == DayNumber(time))
              && (!handled ==> d.plant.store.scheduler.occurrences[k] == rows[k])
  {
    hide ProcessFrom, DaysOf, OnWeekday, MaskOf;
    if ClockTime(time) {
      WeekdayBit(days, entries[k].weekdayMask, time.weekday);
      ProcessFromHandles(env, c, entries, programs, c.plant.store.scheduler.occurrences, time, 0, k);
    }
  }

  // ----- Whole runs -----

  /** The occurrence that the table keeps for a configured schedule. */
  ghost predicate LastIs(s: Managed, sc: ScheduleConfiguration, last: nat) {
    exists k :: RowIs(s, sc, last, k)
  }

  predicate RowIs(s: Managed, sc: ScheduleConfiguration, last: nat, k: nat) {
    && k < |s.m.configuration.schedules| && k < 16
    && s.m.configuration.schedules[k] == sc && s.c.plant.store.scheduler.occurrences[k].last == last
  }

  /** A tick at the minute of an enabled schedule on one of its days. */
  predicate Rings(op: ManagedOp, sc: ScheduleConfiguration, days: seq<bool>)
    requires |days| == 7
  {
    && op.TickOp? && ClockTime(op.time)
    && sc.enabled && days[op.time.weekday] && op.time.hour == sc.hour && op.time.minute == sc.minute
  }

  /** One step of a run: the schedule is handled if its minute ticks on a day on which it was not handled last. */
  predicate Follows(op: ManagedOp, sc: ScheduleConfiguration, days: seq<bool>, last: nat, handled: seq<u64>, now: nat)
    requires |days| == 7
  {
    if Rings(op, sc, days) && last != DayNumber(op.time) then handled == [DayNumber(op.time)] && now == DayNumber(op.time)
    else handled == [] && now == last
  }

  lemma TickRow(env: Environment, boardZones: seq<Zone>, s: Managed, time: SchedulerTime, sc: ScheduleConfiguration, days: seq<bool>,
                last: nat, k: nat) returns (now: nat)
    requires Joined(s, boardZones) && RowIs(s, sc, last, k) && |days| == 7 && sc.weekdayMask == MaskOf(days)
    ensures var (after, log) := Advance(env, boardZones, s, TickOp(time));
            RowIs(after, sc, now, k) && Follows(TickOp(time), sc, days, last, DaysOf(log, sc.scheduleId), now)
  {
    hide Process, DaysOf, MaskOf, Valid, Refines, Resolve, DistinctIds, ProgramOperations.Consistent;
    JoinedUsable(s, boardZones);
    JoinedFits(s, boardZones);
    EntriesInForce(s.m, boardZones, k);
    ScheduleInTime(s.m.configuration, boardZones, k);
    NothingHandled([], sc.scheduleId);
    TickHandlesExactly(env, s.c, EntriesNow(s.m), s.m.views.programs, time, k, days);
    now := Advance(env, boardZones, s, TickOp(time)).0.c.plant.store.scheduler.occurrences[k].last;
  }

  lemma ScheduleInTime(c: IrrigationConfiguration, boardZones: seq<Zone>, k: nat)
    requires Valid(c, boardZones) && k < |c.schedules|
    ensures c.schedules[k].hour <= 23 && c.schedules[k].minute <= 59 && 1 <= c.schedules[k].weekdayMask <= 127
  {
    assert ValidSchedule(c.schedules[k], c.programs);
  }

  lemma ChangeRow(env: Environment, boardZones: seq<Zone>, s: Managed, mutation: Mutation, o: SaveOutcome, sc: ScheduleConfiguration,
                  last: nat, k: nat) returns (j: nat)
    requires Joined(s, boardZones) && Usable(s.m) && RowIs(s, sc, last, k) && Untouched(s.m, mutation, boardZones, sc)
    ensures RowIs(Advance(env, boardZones, s, ChangeOp(mutation, o)).0, sc, last, j)
  {
    hide Mutate, DraftOf, Valid, Persist, InForce, EntriesOf, ProgramOperations.Consistent, Refines;
    JoinedUsable(s, boardZones);
    MutationIsAllOrNothing(s.m, s.backing, mutation, boardZones, o);
    var (after, saved, result) := Mutate(s.m, s.backing, mutation, boardZones, o);
    var draft := DraftOf(s.m.configuration, mutation);
    j := k;
    if result == Ok {
      InForceIsUsable(after, boardZones);
      j :| 0 <= j < |draft.candidate.schedules| && draft.candidate.schedules[j] == sc;
    } else if draft.Draft? && !Valid(draft.candidate, boardZones) {
      ChangeRefused(s.m, s.backing, mutation, boardZones, o);
    }
  }

  lemma CallRow(env: Environment, boardZones: seq<Zone>, s: Managed, call: Call, sc: ScheduleConfiguration, last: nat, k: nat)
    requires Joined(s, boardZones) && RowIs(s, sc, last, k)
    ensures RowIs(Advance(env, boardZones, s, CallOp(call)).0, sc, last, k)
  {
    hide Serve, InForce, ProgramOperations.Consistent;
    JoinedIsConsistent(s, boardZones);
    ServeFrames(env, s.c, call);
  }

  lemma StepRow(env: Environment, boardZones: seq<Zone>, s: Managed, op: ManagedOp, sc: ScheduleConfiguration, days: seq<bool>, last: nat)
    returns (now: nat)
    requires Joined(s, boardZones) && Usable(s.m) && LastIs(s, sc, last) && |days| == 7 && sc.weekdayMask == MaskOf(days)
    requires op.ChangeOp? ==> Untouched(s.m, op.mutation, boardZones, sc)
    ensures var (after, log) := Advance(env, boardZones, s, op);
            && Joined(after, boardZones) && Usable(after.m)
            && LastIs(after, sc, now) && Follows(op, sc, days, last, DaysOf(log, sc.scheduleId), now)
  {
    hide Advance, Joined, RowIs, DaysOf, MaskOf, Usable, Untouched;
    AdvanceIsJoined(env, boardZones, s, op);
    JoinedUsable(Advance(env, boardZones, s, op).0, boardZones);
    var k :| RowIs(s, sc, last, k);
    now := last;
    NothingHandled([], sc.scheduleId);
    match op {
      case ChangeOp(mutation, o) =>
        NoLog(env, boardZones, s, mutation, o);
        k := ChangeRow(env, boardZones, s, mutation, o, sc, last, k);
      case TickOp(time) =>
        now := TickRow(env, boardZones, s, time, sc, days, last, k);
      case CallOp(call) =>
        NoLogOfCall(env, boardZones, s, call);
        CallRow(env, boardZones, s, call, sc, last, k);
    }
  }

  /** Some tick of the run rings on the day. */
  predicate RingsOn(ops: seq<ManagedOp>, sc: ScheduleConfiguration, days: seq<bool>, day: nat)
    requires |days| == 7
  {
    exists i :: 0 <= i < |ops| && ops[i].TickOp? && Rings(ops[i], sc, days) && DayNumber(ops[i].time) == day
  }

  /** The handled days are those that ring, except perhaps one on which the schedule had been handled before the run. */
  ghost predicate HandledAsConfigured(ops: seq<ManagedOp>, sc: ScheduleConfiguration, days: seq<bool>, before: nat, handled: seq<u64>, last: nat)
    requires |days| == 7
  {
    && (forall day: nat :: day in handled ==> RingsOn(ops, sc, days, day))
    && (forall day: nat :: RingsOn(ops, sc, days, day) ==> day in handled || day == before)
    && last == (if handled == [] then before else handled[|handled| - 1])
  }

  lemma OneMore(ops: seq<ManagedOp>, op: ManagedOp, sc: ScheduleConfiguration, days: seq<bool>, before: nat, handled: seq<u64>, last: nat,
                more: seq<u64>, now: nat)
    requires |days| == 7 && HandledAsConfigured(ops, sc, days, before, handled, last) && Follows(op, sc, days, last, more, now)
    ensures HandledAsConfigured(ops + [op], sc, days, before, handled + more, now)
  {
    var all := ops + [op];
    forall day: nat ensures RingsOn(all, sc, days, day) <==> RingsOn(ops, sc, days, day) || (op.TickOp? && Rings(op, sc, days) && DayNumber(op.time) == day) {
      if i :| 0 <= i < |ops| && ops[i].TickOp? && Rings(ops[i], sc, days) && DayNumber(ops[i].time) == day { assert all[i] == ops[i]; }
      assert all[|ops|] == op;
    }
    assert handled == [] || handled[|handled| - 1] in handled;
    if more == [] {
      assert handled + more == handled;
    }
  }

  lemma {:induction false} RunFollows(env: Environment, boardZones: seq<Zone>, s: Managed, ops: seq<ManagedOp>, sc: ScheduleConfiguration,
                                      days: seq<bool>, before: nat) returns (last: nat)
    requires Joined(s, boardZones) && Usable(s.m) && LastIs(s, sc, before) && |days| == 7 && sc.weekdayMask == MaskOf(days)
    requires NeverTouched(env, boardZones, s, ops, sc)
    ensures var (after, log) := AdvanceAll(env, boardZones, s, ops);
            && Usable(after.m) && LastIs(after, sc, last)
            && HandledAsConfigured(ops, sc, days, before, DaysOf(log, sc.scheduleId), last)
    decreases |ops|
  {
    hide Advance, Joined, LastIs, MaskOf, Usable, Untouched, HandledAsConfigured, Follows, DaysOf;
    if ops == [] {
      last := before;
      NothingYet(sc, days, before);
    } else {
      var earlier, op := ops[..|ops| - 1], ops[|ops| - 1];
      assert ops == earlier + [op];
      var middle := RunFollows(env, boardZones, s, earlier, sc, days, before);
      var (between, log) := AdvanceAll(env, boardZones, s, earlier);
      last := StepRow(env, boardZones, between, op, sc, days, middle);
      var more := Advance(env, boardZones, between, op).1;
      DaysOfJoin(log, more, sc.scheduleId);
      OneMore(earlier, op, sc, days, before, DaysOf(log, sc.scheduleId), middle, DaysOf(more, sc.scheduleId), last);
    }
  }

  lemma NothingYet(sc: ScheduleConfiguration, days: seq<bool>, before: nat)
    requires |days| == 7
    ensures HandledAsConfigured([], sc, days, before, DaysOf([], sc.scheduleId), before)
  {
  }

  /**
   Mutations, saves that fail, rollbacks, ticks and calls of all services in any order: a schedule that no mutation touches is
   handled on a day if and only if a tick of that day falls on its minute while it is enabled for that weekday, but for a day on
   which it had been handled before; a disabled one is never handled.
   */
  lemma HandledOnItsDays(env: Environment, boardZones: seq<Zone>, s: Managed, ops: seq<ManagedOp>, sc: ScheduleConfiguration,
                         days: seq<bool>, k: nat)
    requires Joined(s, boardZones) && Usable(s.m) && NeverTouched(env, boardZones, s, ops, sc)
    requires k < |s.m.configuration.schedules| && s.m.configuration.schedules[k] == sc
    requires |days| == 7 && sc.weekdayMask == MaskOf(days)
    ensures k < 16
    ensures var handled, before := DaysOf(AdvanceAll(env, boardZones, s, ops).1, sc.scheduleId), s.c.plant.store.scheduler.occurrences[k].last;
            && (!sc.enabled ==> handled == [])
            && (forall day: nat :: day in handled ==> RingsOn(ops, sc, days, day))
            && (forall day: nat :: day != before && RingsOn(ops, sc, days, day) ==> day in handled)
  {
    hide AdvanceAll, NeverTouched, DaysOf, MaskOf, RowIs;
    EntriesUpTo16(s, boardZones);
    var before := s.c.plant.store.scheduler.occurrences[k].last;
    assert LastIs(s, sc, before) by { assert RowIs(s, sc, before, k) by { RowAt(s, sc, k); } }
    var last := RunFollows(env, boardZones, s, ops, sc, days, before);
    var handled := DaysOf(AdvanceAll(env, boardZones, s, ops).1, sc.scheduleId);
    assert handled == [] || handled[0] in handled;
  }

  lemma EntriesUpTo16(s: Managed, boardZones: seq<Zone>)
    requires Joined(s, boardZones)
    ensures |s.m.configuration.schedules| <= 16
  {
  }

  lemma RowAt(s: Managed, sc: ScheduleConfiguration, k: nat)
    requires k < |s.m.configuration.schedules| && k < 16 && s.m.configuration.schedules[k] == sc
    ensures RowIs(s, sc, s.c.plant.store.scheduler.occurrences[k].last, k)
  {
  }

  // ----- What is started -----

  /** Whatever the scheduler starts for a schedule is the program the schedule names, as it is configured. */
  lemma StartsAsConfigured(env: Environment, boardZones: seq<Zone>, s: Managed, c: ProgramOperations.Controller, k: nat)
    requires Joined(s, boardZones) && k < |s.m.configuration.schedules|
    ensures Usable(s.m) && s.m.live.Some? && k < |EntriesNow(s.m)| && EntriesNow(s.m)[k].program < |s.m.views.programs|
    ensures var sc := s.m.configuration.schedules[k];
            var (d, status) := Handle(env, c, EntriesNow(s.m)[k], s.m.views.programs);
            status == OccurrenceStarted ==>
              && d.program.Some? && d.context == StartContext(ScheduledOrigin, Some(sc.scheduleId))
              && exists n :: 0 <= n < |s.m.configuration.programs| && s.m.configuration.programs[n].programId == sc.programId
                          && Runs(d.program.value, s.m.configuration.programs[n])
  {
    hide Handle, Valid, Resolve, Refines, ProgramOperations.Consistent, Runs;
    JoinedUsable(s, boardZones);
    JoinedFits(s, boardZones);
    EntriesInForce(s.m, boardZones, k);
    var entry := EntriesNow(s.m)[k];
    HandleMeans(env, c, entry, s.m.views.programs);
    var n := SlotOfSchedule(s.m.views, s.m.configuration, boardZones, k, entry.program);
  }

  lemma SlotOfSchedule(v: Views, c: IrrigationConfiguration, boardZones: seq<Zone>, k: nat, slot: nat) returns (n: nat)
    requires Refines(v, c) && Valid(c, boardZones) && k < |c.schedules| && slot < 4
    requires v.programUsed[slot] && v.programIds[slot] == c.schedules[k].programId
    ensures n < |c.programs| && c.programs[n].programId == c.schedules[k].programId && Runs(v.programs[slot], c.programs[n])
  {
    assert ValidSchedule(c.schedules[k], c.programs);
    n :| 0 <= n < |c.programs| && c.programs[n].programId == c.schedules[k].programId;
    hide Valid, Refines;
    SlotsHoldPrograms(v, c, boardZones, n);
  }
}
