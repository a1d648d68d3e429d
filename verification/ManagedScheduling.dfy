/** The configuration manager and the scheduler together: mutations, ticks and service calls in any order. */
module ManagedScheduling {
  import opened Bytes
  import opened Common
  import opened Configuration
  import opened RuntimeStates
  import opened Plants
  import opened ProgramOperations
  import opened ServiceRuns
  import opened Schedules
  import opened SchedulerServices
  import opened SchedulerRuns
  import opened SlotTables
  import opened RuntimeViews
  import opened SlotStore
  import opened ManagerOperations
  import opened ManagerRuns

  datatype Managed = Managed(m: Manager, backing: Backing, c: Controller)

  datatype ManagedOp = ChangeOp(mutation: Mutation, outcome: SaveOutcome) | TickOp(time: SchedulerTime) | CallOp(call: Call)

  /** The manager and its scheduler agree, and the occurrences are those of the controller's store. */
  predicate Joined(s: Managed, boardZones: seq<Zone>) {
    && InForce(s.m, boardZones) && s.m.live.Some? && s.m.live.value.table == s.c.plant.store.scheduler
    && Consistent(s.c)
  }

  function EntriesNow(m: Manager): seq<Entry>
    requires Usable(m) && m.live.Some?
  {
    ResolveAll(m.live.value.entries, m.views.scheduleIds)
  }

  /** The scheduler that the runs of ticks and reconfigurations are about. */
  function View(s: Managed, boardZones: seq<Zone>): Scheduling
    requires Joined(s, boardZones)
  {
    Scheduling(s.c, EntriesNow(s.m), s.m.views.programs)
  }

  function WithTable(c: Controller, table: SchedulerRuntime): Controller {
    WithStore(c, c.plant.store.(scheduler := table))
  }

  function TableOf(s: Managed): SchedulerRuntime {
    if s.m.live.Some? then s.m.live.value.table else s.c.plant.store.scheduler
  }

  function Advance(env: Environment, boardZones: seq<Zone>, s: Managed, op: ManagedOp): (Managed, seq<Handled>)
    requires Joined(s, boardZones)
  {
    match op
    case ChangeOp(mutation, outcome) =>
      var (m, backing, _) := Mutate(s.m, s.backing, mutation, boardZones, outcome);
      var after := Managed(m, backing, s.c);
      (after.(c := WithTable(s.c, TableOf(after))), [])
    case TickOp(time) =>
      JoinedFits(s, boardZones);
      var (c, log, _) := Schedules.Process(env, s.c, EntriesNow(s.m), s.m.views.programs, time);
      (Managed(s.m.(live := Some(s.m.live.value.(table := c.plant.store.scheduler))), s.backing, c), log)
    case CallOp(call) => (s.(c := Serve(env, s.c, call)), [])
  }

  lemma JoinedFits(s: Managed, boardZones: seq<Zone>)
    requires Joined(s, boardZones)
    ensures Sane(View(s, boardZones)) && EntriesNow(s.m) == EntriesOf(s.m)
  {
    hide Refines, Valid, Resolve;
    DistinctLive(s.m.views, s.m.configuration, boardZones);
    forall i | 0 <= i < |EntriesNow(s.m)| ensures EntriesNow(s.m)[i].program < MAX_PROGRAMS {
      EntryProgram(s.m.live.value.entries[i], s.m.views.scheduleIds);
    }
  }

  lemma EntryProgram(ref: EntryRef, ids: seq<Text>)
    requires RefInRange(ref) && |ids| == MAX_SCHEDULES
    ensures Resolve(ref, ids).program < MAX_PROGRAMS
  {
  }

  // ----- A change is none, one or two reconfigurations -----

  function Wanted(v: Views, c: IrrigationConfiguration): (entries: seq<Entry>)
    requires Shape(v) && |c.schedules| <= MAX_SCHEDULES
    ensures forall i | 0 <= i < |entries| :: entries[i].program < MAX_PROGRAMS
  {
    ResolveAll(v.schedules[..|c.schedules|], v.scheduleIds)
  }

  function ChangeOps(m: Manager, backing: Backing, mutation: Mutation, boardZones: seq<Zone>, o: SaveOutcome): (ops: seq<Op>)
    requires Usable(m)
    ensures forall i | 0 <= i < |ops| :: ops[i].ConfigureOp? && OpSane(ops[i])
  {
    var draft := DraftOf(m.configuration, mutation);
    if draft.Refuse? || !Valid(draft.candidate, boardZones) then []
    else
      var changed := m.configuration.programs != draft.candidate.programs;
      var views := Rebuild(m.views, draft.candidate, changed);
      var forth := ConfigureOp(Wanted(views, draft.candidate), views.programs);
      if Persist(backing, draft.candidate, boardZones, o).1 then [forth]
      else
        var restored := Rebuild(views, m.configuration, changed);
        [forth, ConfigureOp(Wanted(restored, m.configuration), restored.programs)]
  }

  /** What the scheduler does with the entries of rebuilt views is what a reconfiguration of the runs does. */
  lemma ForthIsConfigure(m: Manager, candidate: IrrigationConfiguration, boardZones: seq<Zone>)
    requires InForce(m, boardZones) && m.live.Some? && Valid(candidate, boardZones) && FitTogether(m.configuration, candidate)
    ensures |candidate.schedules| <= MAX_SCHEDULES
    ensures var views := Rebuild(m.views, candidate, m.configuration.programs != candidate.programs);
            var (configured, result) := ConfigureLive(m.live.value, views, |candidate.schedules|);
            var next := Manager(candidate, views, Some(configured));
            && result == Ok && InForce(next, boardZones)
            && (EntriesNow(next), configured.table, Ok) == Configure(EntriesNow(m), m.live.value.table, Wanted(views, candidate))
            && EntriesNow(next) == Wanted(views, candidate) == EntriesOf(next)
  {
    hide Refines, Valid, FitTogether, SlotsKept, Rebuild, Resolve, EntriesAcceptable, Reconfigured, OccurrencesKept;
    Forward(m, candidate, boardZones);
    var views := Rebuild(m.views, candidate, m.configuration.programs != candidate.programs);
    RefinedShape(m.views, m.configuration);
    KeptIdsRead(m.views, views, candidate.programs);
    LiveEntriesRead(m.views, views, m.configuration);
    RefinedAcceptable(views, candidate, boardZones);
  }

  /** The entry of a schedule that both configurations have is the same before and after. */
  lemma EntryStays(m: Manager, next: Manager, boardZones: seq<Zone>, s: ScheduleConfiguration)
    requires InForce(m, boardZones) && InForce(next, boardZones) && SlotsKept(m.views, next.views, next.configuration.programs)
    requires s in m.configuration.schedules && s in next.configuration.schedules
    ensures EntryFor(next, s) == EntryFor(m, s) && EntryFor(m, s) in EntriesOf(m) && EntryFor(m, s) in EntriesOf(next)
  {
    hide Refines, Valid, SlotsKept, Resolve;
    var j :| 0 <= j < |m.configuration.schedules| && m.configuration.schedules[j] == s;
    var k :| 0 <= k < |next.configuration.schedules| && next.configuration.schedules[k] == s;
    ProgramConfigured(next.configuration, boardZones, k);
    SameEntry(m.views, m.configuration, next.views, next.configuration, j, k);
    EntryForIs(m, j);
    EntryForIs(next, k);
    assert EntriesOf(m)[j] == EntryFor(m, s) && EntriesOf(next)[k] == EntryFor(next, s);
  }

  /** The entry that a schedule has in views that agree with the configuration. */
  function EntryFor(m: Manager, s: ScheduleConfiguration): Entry
    requires Usable(m)
  {
    var slot := SlotOf(m.views.programUsed, m.views.programIds, s.programId);
    Entry(s.scheduleId, s.enabled, s.weekdayMask, s.hour, s.minute, if slot.Some? then slot.value else 0)
  }

  lemma EntryForIs(m: Manager, k: nat)
    requires Usable(m) && Refines(m.views, m.configuration) && k < |m.configuration.schedules|
    ensures Resolve(m.views.schedules[k], m.views.scheduleIds) == EntryFor(m, m.configuration.schedules[k])
  {
    EntryIs(m.views, m.configuration, k);
  }

  /** Two steps of a run of the scheduler. */
  lemma PushOp(env: Environment, s: Scheduling, ops: seq<Op>, op: Op)
    requires Sane(s) && (forall i | 0 <= i < |ops| :: OpSane(ops[i])) && OpSane(op)
    ensures var (before, log) := RunOps(env, s, ops); var (after, more) := Apply(env, before, op);
            RunOps(env, s, ops + [op]) == (after, log + more)
  {
    hide Apply, Sane;
    assert (ops + [op])[..|ops|] == ops;
  }

  lemma JoinOps(env: Environment, s: Scheduling, ops: seq<Op>, more: seq<Op>)
    requires Sane(s) && (forall i | 0 <= i < |ops| :: OpSane(ops[i])) && (forall i | 0 <= i < |more| :: OpSane(more[i]))
    ensures var (before, log) := RunOps(env, s, ops); var (after, rest) := RunOps(env, before, more);
            RunOps(env, s, ops + more) == (after, log + rest)
    decreases |more|
  {
    hide Apply, Sane, OpSane;
    var (before, log) := RunOps(env, s, ops);
    if more == [] {
      assert ops + more == ops && log + [] == log;
    } else {
      var init, last := more[..|more| - 1], more[|more| - 1];
      JoinOps(env, s, ops, init);
      assert (ops + more)[..|ops + more| - 1] == ops + init;
      var (middle, rest) := RunOps(env, before, init);
      var (after, end) := Apply(env, middle, last);
      assert (log + rest) + end == log + (rest + end);
    }
  }

  /** A manager whose scheduler took over the entries of new views, next to the reconfiguration of the runs. */
  lemma ConfigureStep(env: Environment, s: Managed, t: Managed, boardZones: seq<Zone>)
    requires Joined(s, boardZones) && InForce(t.m, boardZones) && t.m.live.Some? && t.c == WithTable(s.c, t.m.live.value.table)
    requires Configure(EntriesNow(s.m), s.m.live.value.table, EntriesNow(t.m)) == (EntriesNow(t.m), t.m.live.value.table, Ok)
    ensures Joined(t, boardZones) && Sane(View(s, boardZones))
    ensures var op := ConfigureOp(EntriesNow(t.m), t.m.views.programs);
            OpSane(op) && Apply(env, View(s, boardZones), op) == (View(t, boardZones), [])
  {
    hide Refines, Valid, TableRow, Configure, Resolve;
    JoinedFits(s, boardZones);
    JoinedFits(t, boardZones);
  }

  /** The manager after a mutation: as it was, forth, or forth and back. */
  lemma ChangeMeans(m: Manager, backing: Backing, mutation: Mutation, boardZones: seq<Zone>, o: SaveOutcome)
    requires InForce(m, boardZones) && m.live.Some?
    requires var draft := DraftOf(m.configuration, mutation); draft.Draft? && Valid(draft.candidate, boardZones)
    ensures var candidate := DraftOf(m.configuration, mutation).candidate;
            && |candidate.schedules| <= MAX_SCHEDULES && FitTogether(m.configuration, candidate)
            && var changed := m.configuration.programs != candidate.programs;
               var views := Rebuild(m.views, candidate, changed);
               var configured := ConfigureLive(m.live.value, views, |candidate.schedules|).0;
               Mutate(m, backing, mutation, boardZones, o).0 ==
               if Persist(backing, candidate, boardZones, o).1 then Manager(candidate, views, Some(configured))
               else Rollback(m, views, configured, changed).0
  {
    hide Refines, Valid, FitTogether, Rebuild, ConfigureLive, DraftOf, Persist, Rollback, OccurrencesKept, SlotsKept;
    DraftFits(m.configuration, mutation, boardZones);
    Forward(m, DraftOf(m.configuration, mutation).candidate, boardZones);
  }

  lemma ChangeRefused(m: Manager, backing: Backing, mutation: Mutation, boardZones: seq<Zone>, o: SaveOutcome)
    requires Usable(m)
    requires var draft := DraftOf(m.configuration, mutation); draft.Refuse? || !Valid(draft.candidate, boardZones)
    ensures Mutate(m, backing, mutation, boardZones, o).0 == m
  {
    hide Valid, DraftOf;
  }

  /** A change is the run of its reconfigurations; an entry whose schedule no draft touches is in all of them. */
  lemma ChangeIsOps(env: Environment, boardZones: seq<Zone>, s: Managed, mutation: Mutation, o: SaveOutcome)
    requires Joined(s, boardZones)
    ensures var after := Advance(env, boardZones, s, ChangeOp(mutation, o)).0;
            var ops := ChangeOps(s.m, s.backing, mutation, boardZones, o);
            && Joined(after, boardZones) && Sane(View(s, boardZones))
            && RunOps(env, View(s, boardZones), ops) == (View(after, boardZones), [])
            && forall sc | sc in s.m.configuration.schedules && Untouched(s.m, mutation, boardZones, sc) ::
                 && sc in after.m.configuration.schedules && EntryFor(after.m, sc) == EntryFor(s.m, sc)
                 && Keeps(ops, EntryFor(s.m, sc))
  {
    hide Refines, Valid, DraftOf, Persist, Mutate, Apply, InForce, Sane, Rebuild, ConfigureLive, Rollback, EntryFor;
    JoinedFits(s, boardZones);
    assert InForce(s.m, boardZones) && Usable(s.m) by { JoinedUsable(s, boardZones); }
    var draft := DraftOf(s.m.configuration, mutation);
    if draft.Refuse? || !Valid(draft.candidate, boardZones) {
      ChangeRefused(s.m, s.backing, mutation, boardZones, o);
    } else {
      ChangeForthAndBack(env, boardZones, s, mutation, o);
    }
  }

  predicate Untouched(m: Manager, mutation: Mutation, boardZones: seq<Zone>, s: ScheduleConfiguration) {
    var draft := DraftOf(m.configuration, mutation);
    draft.Draft? && Valid(draft.candidate, boardZones) ==> s in draft.candidate.schedules
  }

  lemma JoinedUsable(s: Managed, boardZones: seq<Zone>)
    requires Joined(s, boardZones)
    ensures InForce(s.m, boardZones) && Usable(s.m) && s.m.live.Some? && s.m.live.value.table == s.c.plant.store.scheduler
  {
  }

  /** The manager and controller after the views and the scheduler went over to a candidate that fits. */
  function GoneOver(s: Managed, candidate: IrrigationConfiguration): Managed
    requires Usable(s.m) && s.m.live.Some? && |candidate.schedules| <= MAX_SCHEDULES
  {
    var views := Rebuild(s.m.views, candidate, s.m.configuration.programs != candidate.programs);
    var live := ConfigureLive(s.m.live.value, views, |candidate.schedules|).0;
    Managed(Manager(candidate, views, Some(live)), s.backing, WithTable(s.c, live.table))
  }

  /** Going over is one reconfiguration, and the entries of schedules that both configurations have are in it. */
  lemma GoingOver(env: Environment, s: Managed, candidate: IrrigationConfiguration, boardZones: seq<Zone>)
    requires Joined(s, boardZones) && Valid(candidate, boardZones) && FitTogether(s.m.configuration, candidate)
    ensures Usable(s.m) && s.m.live.Some? && |candidate.schedules| <= MAX_SCHEDULES
    ensures var t := GoneOver(s, candidate);
            && Joined(t, boardZones) && Usable(t.m) && Sane(View(s, boardZones))
            && var op := ConfigureOp(Wanted(t.m.views, candidate), t.m.views.programs);
               && OpSane(op) && Apply(env, View(s, boardZones), op) == (View(t, boardZones), [])
               && forall sc | sc in s.m.configuration.schedules && sc in candidate.schedules ::
                    EntryFor(t.m, sc) == EntryFor(s.m, sc) && EntryFor(s.m, sc) in op.entries
  {
    hide Refines, Valid, Apply, InForce, Sane, Rebuild, ConfigureLive, EntryFor, Configure, EntriesNow, EntriesOf,
         Wanted, FitTogether, SlotsKept, OccurrencesKept, Consistent;
    JoinedUsable(s, boardZones);
    Forward(s.m, candidate, boardZones);
    ForthIsConfigure(s.m, candidate, boardZones);
    var t := GoneOver(s, candidate);
    assert Usable(t.m) by { InForceIsUsable(t.m, boardZones); }
    ConfigureStep(env, s, t, boardZones);
    forall sc | sc in s.m.configuration.schedules && sc in candidate.schedules
      ensures EntryFor(t.m, sc) == EntryFor(s.m, sc) && EntryFor(s.m, sc) in EntriesOf(t.m)
    {
      EntryStays(s.m, t.m, boardZones, sc);
    }
  }

  lemma ChangeForthAndBack(env: Environment, boardZones: seq<Zone>, s: Managed, mutation: Mutation, o: SaveOutcome)
    requires Joined(s, boardZones) && Usable(s.m)
    requires var draft := DraftOf(s.m.configuration, mutation); draft.Draft? && Valid(draft.candidate, boardZones)
    ensures var after := Advance(env, boardZones, s, ChangeOp(mutation, o)).0;
            var ops := ChangeOps(s.m, s.backing, mutation, boardZones, o);
            && Joined(after, boardZones) && Sane(View(s, boardZones))
            && RunOps(env, View(s, boardZones), ops) == (View(after, boardZones), [])
            && forall sc | sc in s.m.configuration.schedules && Untouched(s.m, mutation, boardZones, sc) ::
                 && sc in after.m.configuration.schedules && EntryFor(after.m, sc) == EntryFor(s.m, sc)
                 && Keeps(ops, EntryFor(s.m, sc))
  {
    hide Refines, Valid, DraftOf, Persist, Mutate, Apply, InForce, Sane, Rebuild, ConfigureLive, EntryFor, Wanted, FitTogether, Consistent,
         RunOps;
    var c, candidate := s.m.configuration, DraftOf(s.m.configuration, mutation).candidate;
    JoinedUsable(s, boardZones);
    ChangeMeans(s.m, s.backing, mutation, boardZones, o);
    GoingOver(env, s, candidate, boardZones);
    var t := GoneOver(s, candidate);
    var op := ConfigureOp(Wanted(t.m.views, candidate), t.m.views.programs);
    OneOp(env, View(s, boardZones), op);
    FitSymmetric(c, candidate);
    JoinedIsValid(s, boardZones);
    GoingOver(env, t, c, boardZones);
    var u := GoneOver(t, c);
    var undo := ConfigureOp(Wanted(u.m.views, c), u.m.views.programs);
    PushOp(env, View(s, boardZones), [op], undo);
    assert [op] + [undo] == [op, undo];
    var after := Advance(env, boardZones, s, ChangeOp(mutation, o)).0;
    if Persist(s.backing, candidate, boardZones, o).1 {
      assert after.m == t.m && after.c == t.c && ChangeOps(s.m, s.backing, mutation, boardZones, o) == [op];
    } else {
      assert after.m == u.m && after.c == u.c && ChangeOps(s.m, s.backing, mutation, boardZones, o) == [op, undo];
      var nothing: seq<Handled> := [];
      assert RunOps(env, View(s, boardZones), [op]) == (View(t, boardZones), nothing);
      assert RunOps(env, View(s, boardZones), [op] + [undo]) == (View(u, boardZones), nothing + nothing);
      assert nothing + nothing == nothing;
      assert View(after, boardZones) == View(u, boardZones);
      assert ChangeOps(s.m, s.backing, mutation, boardZones, o) == [op] + [undo];
    }
  }

  lemma JoinedIsValid(s: Managed, boardZones: seq<Zone>)
    requires Joined(s, boardZones)
    ensures Valid(s.m.configuration, boardZones)
  {
  }

  lemma OneOp(env: Environment, s: Scheduling, op: Op)
    requires Sane(s) && OpSane(op)
    ensures RunOps(env, s, [op]) == Apply(env, s, op)
  {
    hide Apply, Sane;
    assert [op][..0] == [];
    assert RunOps(env, s, []) == (s, []);
    assert [] + Apply(env, s, op).1 == Apply(env, s, op).1;
  }

  // ----- Ticks and calls -----

  lemma {:induction false} TickKeepsRows(env: Environment, c: Controller, entries: seq<Entry>, programs: seq<Program>, time: SchedulerTime)
    requires TimeValid(time) && Fits(c, entries, programs) && DistinctIds(entries)
    requires forall k | 0 <= k < |entries| :: TableRow(c.plant.store.scheduler, k)
    ensures var d := Schedules.Process(env, c, entries, programs, time).0;
            forall k | 0 <= k < |entries| :: TableRow(d.plant.store.scheduler, k)
  {
    hide ProcessFrom, Due, HandleAt, DaysOf;
    forall k | 0 <= k < |entries|
      ensures TableRow(Schedules.Process(env, c, entries, programs, time).0.plant.store.scheduler, k)
    {
      assert TableRow(c.plant.store.scheduler, k);
      ProcessFromHandles(env, c, entries, programs, c.plant.store.scheduler.occurrences, time, 0, k);
    }
  }

  /** A tick is the tick of the runs. */
  lemma TickIsOp(env: Environment, boardZones: seq<Zone>, s: Managed, time: SchedulerTime)
    requires Joined(s, boardZones)
    ensures var (after, log) := Advance(env, boardZones, s, TickOp(time));
            && Joined(after, boardZones) && Sane(View(s, boardZones))
            && Apply(env, View(s, boardZones), ProcessOp(time)) == (View(after, boardZones), log)
            && after.m.configuration == s.m.configuration && after.m.views == s.m.views
  {
    hide Refines, Valid, Resolve, ProcessFrom, Consistent, TableRow;
    JoinedFits(s, boardZones);
    ProcessIsSane(env, View(s, boardZones), time);
    if TimeValid(time) {
      ProcessFromIsConsistent(env, s.c, EntriesNow(s.m), s.m.views.programs, s.c.plant.store.scheduler.occurrences, time, 0);
      TickKeepsRows(env, s.c, EntriesNow(s.m), s.m.views.programs, time);
    }
  }

  lemma CallIsOp(env: Environment, boardZones: seq<Zone>, s: Managed, call: Call)
    requires Joined(s, boardZones)
    ensures var after := Advance(env, boardZones, s, CallOp(call)).0;
            && Joined(after, boardZones) && Sane(View(s, boardZones))
            && Apply(env, View(s, boardZones), ServiceOp(call)) == (View(after, boardZones), [])
            && after.m == s.m
  {
    hide InForce, Consistent, Serve, Resolve;
    JoinedUsable(s, boardZones);
    JoinedFits(s, boardZones);
    JoinedIsConsistent(s, boardZones);
    ServeFrames(env, s.c, call);
  }

  lemma JoinedIsConsistent(s: Managed, boardZones: seq<Zone>)
    requires Joined(s, boardZones)
    ensures Consistent(s.c)
  {
  }

  // ----- Runs -----

  lemma AdvanceIsJoined(env: Environment, boardZones: seq<Zone>, s: Managed, op: ManagedOp)
    requires Joined(s, boardZones)
    ensures Joined(Advance(env, boardZones, s, op).0, boardZones)
  {
    hide Joined, Advance, ChangeOps, Apply, RunOps, View, Keeps;
    match op {
      case ChangeOp(mutation, o) => JoinedUsable(s, boardZones); ChangeIsOps(env, boardZones, s, mutation, o);
      case TickOp(time) => TickIsOp(env, boardZones, s, time);
      case CallOp(call) => CallIsOp(env, boardZones, s, call);
    }
  }

  function AdvanceAll(env: Environment, boardZones: seq<Zone>, s: Managed, ops: seq<ManagedOp>): (r: (Managed, seq<Handled>))
    requires Joined(s, boardZones)
    ensures Joined(r.0, boardZones)
  {
    if ops == [] then (s, [])
    else
      var (before, log) := AdvanceAll(env, boardZones, s, ops[..|ops| - 1]);
      AdvanceIsJoined(env, boardZones, before, ops[|ops| - 1]);
      var (after, more) := Advance(env, boardZones, before, ops[|ops| - 1]);
      (after, log + more)
  }

  /** No mutation of the run touches the schedule: every draft that is valid has it. */
  predicate NeverTouched(env: Environment, boardZones: seq<Zone>, s: Managed, ops: seq<ManagedOp>, sc: ScheduleConfiguration)
    requires Joined(s, boardZones)
  {
    ops == [] ||
    var last := ops[|ops| - 1];
    && NeverTouched(env, boardZones, s, ops[..|ops| - 1], sc)
    && (last.ChangeOp? ==> Untouched(AdvanceAll(env, boardZones, s, ops[..|ops| - 1]).0.m, last.mutation, boardZones, sc))
  }

  predicate ValidTick(op: ManagedOp) {
    op.TickOp? && TimeValid(op.time)
  }

  /** Days never go back. */
  predicate DaysForward(ops: seq<ManagedOp>) {
    forall i, j | 0 <= i < j < |ops| && ValidTick(ops[i]) && ValidTick(ops[j]) :: OccurrenceFor(ops[i].time) <= OccurrenceFor(ops[j].time)
  }

  predicate TickedOn(ops: seq<ManagedOp>, day: u64) {
    exists i :: 0 <= i < |ops| && ValidTick(ops[i]) && OccurrenceFor(ops[i].time) == day
  }

  /** The days of a run of the scheduler are among those of the run it stands for, and in order. */
  predicate DaysMatch(expanded: seq<Op>, ops: seq<ManagedOp>) {
    && NonDecreasing(expanded)
    && forall i | 0 <= i < |expanded| && IsTick(expanded[i]) :: TickedOn(ops, OccurrenceFor(expanded[i].time))
  }

  lemma StillTicked(ops: seq<ManagedOp>, op: ManagedOp, day: u64)
    requires TickedOn(ops, day)
    ensures TickedOn(ops + [op], day)
  {
    var i :| 0 <= i < |ops| && ValidTick(ops[i]) && OccurrenceFor(ops[i].time) == day;
    assert (ops + [op])[i] == ops[i];
  }

  lemma QuietDays(expanded: seq<Op>, more: seq<Op>, ops: seq<ManagedOp>, op: ManagedOp)
    requires DaysMatch(expanded, ops) && forall i | 0 <= i < |more| :: !IsTick(more[i])
    ensures DaysMatch(expanded + more, ops + [op])
  {
    hide TickedOn;
    var all := expanded + more;
    assert forall i | 0 <= i < |all| && IsTick(all[i]) :: i < |expanded| && all[i] == expanded[i];
    forall i | 0 <= i < |all| && IsTick(all[i]) ensures TickedOn(ops + [op], OccurrenceFor(all[i].time)) {
      StillTicked(ops, op, OccurrenceFor(all[i].time));
    }
  }

  lemma TickDays(expanded: seq<Op>, ops: seq<ManagedOp>, time: SchedulerTime)
    requires DaysMatch(expanded, ops) && DaysForward(ops + [TickOp(time)])
    ensures DaysMatch(expanded + [ProcessOp(time)], ops + [TickOp(time)])
  {
    var all, managed := expanded + [ProcessOp(time)], ops + [TickOp(time)];
    assert managed[|ops|] == TickOp(time);
    forall i | 0 <= i < |all| && IsTick(all[i]) ensures TickedOn(managed, OccurrenceFor(all[i].time)) {
      if i < |expanded| {
        assert all[i] == expanded[i];
        StillTicked(ops, TickOp(time), OccurrenceFor(all[i].time));
      } else {
        assert all[i] == ProcessOp(time) && ValidTick(managed[|ops|]);
      }
    }
    forall i, j | 0 <= i < j < |all| && IsTick(all[i]) && IsTick(all[j]) ensures OccurrenceFor(all[i].time) <= OccurrenceFor(all[j].time) {
      assert all[i] == expanded[i];
      if j < |expanded| {
        assert all[j] == expanded[j];
      } else {
        var day := OccurrenceFor(expanded[i].time);
        var k :| 0 <= k < |ops| && ValidTick(ops[k]) && OccurrenceFor(ops[k].time) == day;
        assert managed[k] == ops[k] && ValidTick(managed[k]) && ValidTick(managed[|ops|]);
      }
    }
  }

  lemma DaysEarlier(ops: seq<ManagedOp>, op: ManagedOp)
    requires DaysForward(ops + [op])
    ensures DaysForward(ops)
  {
    assert forall i | 0 <= i < |ops| :: (ops + [op])[i] == ops[i];
  }

  /** One step of a run, as steps of the scheduler's run. */
  lemma StepExpands(env: Environment, boardZones: seq<Zone>, s: Managed, op: ManagedOp, sc: ScheduleConfiguration) returns (more: seq<Op>)
    requires Joined(s, boardZones) && Usable(s.m) && sc in s.m.configuration.schedules
    requires op.ChangeOp? ==> Untouched(s.m, op.mutation, boardZones, sc)
    ensures (forall i | 0 <= i < |more| :: OpSane(more[i])) && Keeps(more, EntryFor(s.m, sc)) && Sane(View(s, boardZones))
    ensures if op.TickOp? then more == [ProcessOp(op.time)] else forall i | 0 <= i < |more| :: !IsTick(more[i])
    ensures var (after, log) := Advance(env, boardZones, s, op);
            && Joined(after, boardZones) && Usable(after.m) && RunOps(env, View(s, boardZones), more) == (View(after, boardZones), log)
            && sc in after.m.configuration.schedules && EntryFor(after.m, sc) == EntryFor(s.m, sc)
  {
    hide Advance, ChangeOps, Apply, RunOps, View, Sane, Untouched;
    AdvanceIsJoined(env, boardZones, s, op);
    JoinedUsable(Advance(env, boardZones, s, op).0, boardZones);
    match op {
      case ChangeOp(mutation, o) =>
        more := ChangeOps(s.m, s.backing, mutation, boardZones, o);
        ChangeIsOps(env, boardZones, s, mutation, o);
        NoLog(env, boardZones, s, mutation, o);
      case TickOp(time) =>
        more := [ProcessOp(time)];
        TickIsOp(env, boardZones, s, time);
        OneOp(env, View(s, boardZones), more[0]);
      case CallOp(call) =>
        more := [ServiceOp(call)];
        CallIsOp(env, boardZones, s, call);
        OneOp(env, View(s, boardZones), more[0]);
        NoLogOfCall(env, boardZones, s, call);
    }
  }

  lemma NoLog(env: Environment, boardZones: seq<Zone>, s: Managed, mutation: Mutation, o: SaveOutcome)
    requires Joined(s, boardZones)
    ensures Advance(env, boardZones, s, ChangeOp(mutation, o)).1 == []
  {
    hide Mutate, Joined;
    JoinedUsable(s, boardZones);
  }

  lemma NoLogOfCall(env: Environment, boardZones: seq<Zone>, s: Managed, call: Call)
    requires Joined(s, boardZones)
    ensures Advance(env, boardZones, s, CallOp(call)).1 == []
  {
    hide Serve, Joined;
    JoinedIsConsistent(s, boardZones);
  }

  lemma {:induction false} RunExpands(env: Environment, boardZones: seq<Zone>, s: Managed, ops: seq<ManagedOp>, sc: ScheduleConfiguration)
    returns (expanded: seq<Op>)
    requires Joined(s, boardZones) && Usable(s.m) && sc in s.m.configuration.schedules
    requires NeverTouched(env, boardZones, s, ops, sc) && DaysForward(ops)
    ensures (forall i | 0 <= i < |expanded| :: OpSane(expanded[i])) && Keeps(expanded, EntryFor(s.m, sc)) && Sane(View(s, boardZones))
    ensures DaysMatch(expanded, ops)
    ensures var (after, log) := AdvanceAll(env, boardZones, s, ops);
            && Usable(after.m) && RunOps(env, View(s, boardZones), expanded) == (View(after, boardZones), log)
            && sc in after.m.configuration.schedules && EntryFor(after.m, sc) == EntryFor(s.m, sc)
    decreases |ops|
  {
    hide Advance, Apply, View, Sane, Joined, Untouched, DaysForward, DaysMatch, OpSane, EntryFor, RunOps, Keeps, Usable;
    JoinedFits(s, boardZones);
    if ops == [] {
      expanded := [];
      NothingRuns(env, View(s, boardZones), EntryFor(s.m, sc));
    } else {
      var earlier, last := ops[..|ops| - 1], ops[|ops| - 1];
      assert ops == earlier + [last];
      DaysEarlier(earlier, last);
      var before := AdvanceAll(env, boardZones, s, earlier).0;
      var start := RunExpands(env, boardZones, s, earlier, sc);
      var more := StepExpands(env, boardZones, before, last, sc);
      expanded := start + more;
      JoinOps(env, View(s, boardZones), start, more);
      KeepsJoin(start, more, EntryFor(s.m, sc));
      if last.TickOp? { TickDays(start, earlier, last.time); } else { QuietDays(start, more, earlier, last); }
    }
  }

  lemma NothingRuns(env: Environment, s: Scheduling, e: Entry)
    requires Sane(s)
    ensures DaysMatch([], []) && Keeps([], e) && RunOps(env, s, []) == (s, [])
  {
  }

  lemma KeepsJoin(a: seq<Op>, b: seq<Op>, e: Entry)
    requires Keeps(a, e) && Keeps(b, e)
    ensures Keeps(a + b, e)
  {
  }

  /**
   Mutations, saves that fail, rollbacks, ticks and calls of all services in any order, with days that never go back: a schedule that
   no mutation touches is handled at most once per day, wherever its entry and its program's slot are in the views.
   */
  lemma HandledAtMostOnceByDay(env: Environment, boardZones: seq<Zone>, s: Managed, ops: seq<ManagedOp>, sc: ScheduleConfiguration)
    requires Joined(s, boardZones) && Usable(s.m) && sc in s.m.configuration.schedules
    requires NeverTouched(env, boardZones, s, ops, sc) && DaysForward(ops)
    ensures var days := DaysOf(AdvanceAll(env, boardZones, s, ops).1, sc.scheduleId); forall i, j | 0 <= i < j < |days| :: days[i] < days[j]
  {
    hide AdvanceAll, NeverTouched, RunOps, DaysOf, Refines, Valid, DaysForward;
    var expanded := RunExpands(env, boardZones, s, ops, sc);
    ScheduleHasEntry(s, boardZones, sc);
    HandledAtMostOnce(env, View(s, boardZones), expanded, EntryFor(s.m, sc));
  }

  lemma ScheduleHasEntry(s: Managed, boardZones: seq<Zone>, sc: ScheduleConfiguration)
    requires Joined(s, boardZones) && Usable(s.m) && sc in s.m.configuration.schedules
    ensures EntryFor(s.m, sc) in View(s, boardZones).entries && EntryFor(s.m, sc).id == sc.scheduleId
  {
    hide Valid, Resolve, Refines;
    JoinedFits(s, boardZones);
    var k :| 0 <= k < |s.m.configuration.schedules| && s.m.configuration.schedules[k] == sc;
    EntryForIs(s.m, k);
    assert EntriesOf(s.m)[k] == EntryFor(s.m, sc);
  }
}
