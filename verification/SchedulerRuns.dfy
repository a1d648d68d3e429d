/** Over any run of the scheduler, an entry that stays configured is handled at most once per day. */
module SchedulerRuns {
  import opened Bytes
  import opened Common
  import opened RuntimeStates
  import opened Plants
  import opened ProgramOperations
  import opened ServiceRuns
  import opened Schedules

  /** The scheduler over a controller: its entries, and the programs their slots hold. */
  datatype Scheduling = Scheduling(c: Controller, entries: seq<Entry>, programs: seq<Program>)

  /** A tick of the scheduler, a reconfiguration (also of the programs), or any call of another service. */
  datatype Op =
    | ProcessOp(time: SchedulerTime)
    | ConfigureOp(entries: seq<Entry>, programs: seq<Program>)
    | ServiceOp(call: Call)

  predicate Sane(s: Scheduling) {
    Consistent(s.c) && Fits(s.c, s.entries, s.programs) && DistinctIds(s.entries)
  }

  /** Entries name programs that exist. */
  predicate OpSane(op: Op) {
    op.ConfigureOp? ==> forall i | 0 <= i < |op.entries| :: op.entries[i].program < |op.programs|
  }

  function Apply(env: Environment, s: Scheduling, op: Op): (r: (Scheduling, seq<Handled>))
    requires Sane(s) && OpSane(op)
    ensures Sane(r.0)
  {
    match op
    case ProcessOp(time) =>
      var (d, log, _) := Process(env, s.c, s.entries, s.programs, time);
      ProcessIsSane(env, s, time);
      (s.(c := d), log)
    case ConfigureOp(entries, programs) =>
      var (live, table, result) := Configure(s.entries, s.c.plant.store.scheduler, entries);
      if result == Ok then (Scheduling(WithStore(s.c, s.c.plant.store.(scheduler := table)), live, programs), [])
      else (s, [])
    case ServiceOp(call) =>
      ServeFrames(env, s.c, call);
      (s.(c := Serve(env, s.c, call)), [])
  }

  function RunOps(env: Environment, s: Scheduling, ops: seq<Op>): (r: (Scheduling, seq<Handled>))
    requires Sane(s) && forall i | 0 <= i < |ops| :: OpSane(ops[i])
    ensures Sane(r.0)
  {
    if ops == [] then (s, [])
    else
      var (before, log) := RunOps(env, s, ops[..|ops| - 1]);
      var (after, more) := Apply(env, before, ops[|ops| - 1]);
      (after, log + more)
  }

  // ----- What the parts keep -----

  lemma HandleAtIsConsistent(env: Environment, c: Controller, entries: seq<Entry>, programs: seq<Program>, time: SchedulerTime, index: nat)
    requires TimeValid(time) && Fits(c, entries, programs) && index < |entries| && Consistent(c)
    ensures Consistent(HandleAt(env, c, entries, programs, time, index).0)
  {
    hide StartProgram;
    if !Active(c) {
      StartConsistent(env, c, programs[entries[index].program], StartContext(ScheduledOrigin, Some(entries[index].id)));
    }
  }

  lemma {:induction false} ProcessFromIsConsistent(env: Environment, c: Controller, entries: seq<Entry>, programs: seq<Program>,
                                                   snapshot: OccurrenceTable, time: SchedulerTime, index: nat)
    requires TimeValid(time) && Fits(c, entries, programs) && index <= |entries| && Consistent(c)
    ensures var d := ProcessFrom(env, c, entries, programs, snapshot, time, index).0;
            Consistent(d) && d.plant.store.scheduler.count == c.plant.store.scheduler.count
    decreases |entries| - index
  {
    hide HandleAt, Consistent, Due;
    if index < |entries| {
      if !Due(entries[index], time) || snapshot[index].last == OccurrenceFor(time) {
        ProcessFromIsConsistent(env, c, entries, programs, snapshot, time, index + 1);
      } else {
        HandleAtIsConsistent(env, c, entries, programs, time, index);
        ProcessFromIsConsistent(env, HandleAt(env, c, entries, programs, time, index).0, entries, programs, snapshot, time, index + 1);
      }
    }
  }

  lemma ProcessIsSane(env: Environment, s: Scheduling, time: SchedulerTime)
    requires Sane(s)
    ensures Sane(s.(c := Process(env, s.c, s.entries, s.programs, time).0))
  {
    hide ProcessFrom, Consistent;
    if TimeValid(time) {
      ProcessFromIsConsistent(env, s.c, s.entries, s.programs, s.c.plant.store.scheduler.occurrences, time, 0);
    }
  }

  // ----- The days of an entry -----

  /** The days on which entries with an id were handled, in order. */
  function DaysOf(log: seq<Handled>, id: Text): seq<u64> {
    if log == [] then []
    else DaysOf(log[..|log| - 1], id) + if log[|log| - 1].entry.id == id then [log[|log| - 1].occurrence] else []
  }

  lemma {:induction false} DaysOfJoin(a: seq<Handled>, b: seq<Handled>, id: Text)
    ensures DaysOf(a + b, id) == DaysOf(a, id) + DaysOf(b, id)
    decreases |b|
  {
    if b == [] {
      assert a + b == a;
    } else {
      assert (a + b)[..|a + b| - 1] == a + b[..|b| - 1];
      DaysOfJoin(a, b[..|b| - 1], id);
    }
  }

  /** What handling one entry records, and that it leaves the other rows. */
  lemma HandleAtRecords(env: Environment, c: Controller, entries: seq<Entry>, programs: seq<Program>, time: SchedulerTime, index: nat, k: nat)
    requires TimeValid(time) && Fits(c, entries, programs) && index < |entries| && k < |entries|
    ensures var (d, status) := HandleAt(env, c, entries, programs, time, index); var rows := d.plant.store.scheduler.occurrences;
            && Fits(d, entries, programs)
            && (if index == k then rows[k].last == OccurrenceFor(time) && rows[k].status != NoOccurrence
                else rows[k] == c.plant.store.scheduler.occurrences[k])
  {
    hide HandleAt;
  }

  lemma DaysOfOne(handled: Handled, log: seq<Handled>, id: Text)
    ensures DaysOf([handled] + log, id) == (if handled.entry.id == id then [handled.occurrence] else []) + DaysOf(log, id)
  {
    DaysOfJoin([handled], log, id);
    assert [handled][..0] == [];
  }

  /** Whether a tick from `index` on handles the entry under `k`. */
  predicate WillHandle(entries: seq<Entry>, snapshot: OccurrenceTable, time: SchedulerTime, index: nat, k: nat)
    requires TimeValid(time) && k < |entries| <= MAX_SCHEDULES
  {
    index <= k && Due(entries[k], time) && snapshot[k].last != OccurrenceFor(time)
  }

  /** One tick handles the entry under `k` once if it is due and was not handled that day, and otherwise leaves it alone. */
  lemma {:induction false} ProcessFromHandles(env: Environment, c: Controller, entries: seq<Entry>, programs: seq<Program>,
                                              snapshot: OccurrenceTable, time: SchedulerTime, index: nat, k: nat)
    requires TimeValid(time) && Fits(c, entries, programs) && index <= |entries| && k < |entries| && DistinctIds(entries)
    ensures var (d, log) := ProcessFrom(env, c, entries, programs, snapshot, time, index);
            var handled := WillHandle(entries, snapshot, time, index, k);
            && DaysOf(log, entries[k].id) == (if handled then [OccurrenceFor(time)] else [])
            && (handled ==> d.plant.store.scheduler.occurrences[k].last == OccurrenceFor(time) &&
                            d.plant.store.scheduler.occurrences[k].status != NoOccurrence)
            && (!handled ==> d.plant.store.scheduler.occurrences[k] == c.plant.store.scheduler.occurrences[k])
    decreases |entries| - index
  {
    hide HandleAt, Due, DaysOf;
    if index == |entries| {
      NothingHandled([], entries[k].id);
    } else if !Due(entries[index], time) || snapshot[index].last == OccurrenceFor(time) {
      ProcessFromHandles(env, c, entries, programs, snapshot, time, index + 1, k);
    } else {
      var (next, status) := HandleAt(env, c, entries, programs, time, index);
      HandleAtRecords(env, c, entries, programs, time, index, k);
      ProcessFromHandles(env, next, entries, programs, snapshot, time, index + 1, k);
      var log := ProcessFrom(env, next, entries, programs, snapshot, time, index + 1).1;
      DaysOfOne(Handled(entries[index], OccurrenceFor(time), status), log, entries[k].id);
      if index != k { IdsDiffer(entries, index, k); }
    }
  }

  lemma IdsDiffer(entries: seq<Entry>, i: nat, j: nat)
    requires DistinctIds(entries) && i < |entries| && j < |entries| && i != j
    ensures entries[i].id != entries[j].id
  {
  }

  // ----- At most once a day -----

  predicate Increasing(days: seq<u64>) {
    forall i, j | 0 <= i < j < |days| :: days[i] < days[j]
  }

  predicate IsTick(op: Op) {
    op.ProcessOp? && TimeValid(op.time)
  }

  predicate NonDecreasing(ops: seq<Op>) {
    forall i, j | 0 <= i < j < |ops| && IsTick(ops[i]) && IsTick(ops[j]) :: OccurrenceFor(ops[i].time) <= OccurrenceFor(ops[j].time)
  }

  predicate Keeps(ops: seq<Op>, e: Entry) {
    forall i | 0 <= i < |ops| && ops[i].ConfigureOp? :: e in ops[i].entries
  }

  predicate SomeTickOn(ops: seq<Op>, day: u64) {
    exists i :: 0 <= i < |ops| && IsTick(ops[i]) && OccurrenceFor(ops[i].time) == day
  }

  /** The last handled day of the entry under `k` is the one the table holds there. */
  predicate TrackedAt(occurrences: OccurrenceTable, days: seq<u64>, ops: seq<Op>, k: nat)
    requires k < MAX_SCHEDULES
  {
    && Increasing(days)
    && (days != [] ==>
        occurrences[k].last == days[|days| - 1] && occurrences[k].status != NoOccurrence && SomeTickOn(ops, days[|days| - 1]))
  }

  /** What a run keeps about an entry that stays. */
  predicate Tracked(s: Scheduling, e: Entry, days: seq<u64>, ops: seq<Op>)
    requires |s.entries| == s.c.plant.store.scheduler.count <= MAX_SCHEDULES
  {
    exists k :: 0 <= k < |s.entries| && s.entries[k] == e && TrackedAt(s.c.plant.store.scheduler.occurrences, days, ops, k)
  }

  lemma TickTracked(env: Environment, s: Scheduling, e: Entry, days: seq<u64>, ops: seq<Op>, time: SchedulerTime)
    requires Sane(s) && Tracked(s, e, days, ops) && NonDecreasing(ops + [ProcessOp(time)])
    ensures var (after, log) := Apply(env, s, ProcessOp(time)); Tracked(after, e, days + DaysOf(log, e.id), ops + [ProcessOp(time)])
  {
    hide ProcessFrom, Consistent, TrackedAt, DaysOf, NonDecreasing, Due;
    var table := s.c.plant.store.scheduler.occurrences;
    var k :| 0 <= k < |s.entries| && s.entries[k] == e && TrackedAt(table, days, ops, k);
    var (after, log) := Apply(env, s, ProcessOp(time));
    if TimeValid(time) {
      ProcessFromHandles(env, s.c, s.entries, s.programs, table, time, 0, k);
      TickAt(table, after.c.plant.store.scheduler.occurrences, days, DaysOf(log, e.id), ops, time, k);
    } else {
      NothingHandled(days, e.id);
      LaterAt(table, days, ops, ProcessOp(time), k);
    }
    assert after.entries[k] == e;
  }

  lemma LaterAt(table: OccurrenceTable, days: seq<u64>, ops: seq<Op>, op: Op, k: nat)
    requires k < MAX_SCHEDULES && TrackedAt(table, days, ops, k)
    ensures TrackedAt(table, days, ops + [op], k)
  {
    if days != [] { TickStays(ops, op, days[|days| - 1]); }
  }

  /** A tick adds its own day, which is later, or nothing. */
  lemma TickAt(table: OccurrenceTable, after: OccurrenceTable, days: seq<u64>, more: seq<u64>, ops: seq<Op>, time: SchedulerTime, k: nat)
    requires k < MAX_SCHEDULES && TrackedAt(table, days, ops, k) && TimeValid(time) && NonDecreasing(ops + [ProcessOp(time)])
    requires (more == [] && after[k] == table[k])
          || (more == [OccurrenceFor(time)] && table[k].last != OccurrenceFor(time) &&
              after[k].last == OccurrenceFor(time) && after[k].status != NoOccurrence)
    ensures TrackedAt(after, days + more, ops + [ProcessOp(time)], k)
  {
    LaterAt(table, days, ops, ProcessOp(time), k);
    if more == [] {
      assert days + more == days;
    } else {
      var all := ops + [ProcessOp(time)];
      assert all[|ops|] == ProcessOp(time) && IsTick(all[|ops|]);
      assert SomeTickOn(all, OccurrenceFor(time));
      if days != [] { LastDayIsNotLater(ops, time, days[|days| - 1]); }
    }
  }

  lemma TickStays(ops: seq<Op>, op: Op, day: u64)
    requires SomeTickOn(ops, day)
    ensures SomeTickOn(ops + [op], day)
  {
    var i :| 0 <= i < |ops| && IsTick(ops[i]) && OccurrenceFor(ops[i].time) == day;
    assert (ops + [op])[i] == ops[i];
  }

  lemma LastDayIsNotLater(ops: seq<Op>, time: SchedulerTime, day: u64)
    requires SomeTickOn(ops, day) && TimeValid(time) && NonDecreasing(ops + [ProcessOp(time)])
    ensures day <= OccurrenceFor(time)
  {
    var i :| 0 <= i < |ops| && IsTick(ops[i]) && OccurrenceFor(ops[i].time) == day;
    var all := ops + [ProcessOp(time)];
    assert all[i] == ops[i] && all[|ops|] == ProcessOp(time);
  }

  lemma ConfigureTracked(env: Environment, s: Scheduling, e: Entry, days: seq<u64>, ops: seq<Op>, op: Op)
    requires Sane(s) && Tracked(s, e, days, ops) && op.ConfigureOp? && OpSane(op) && e in op.entries
    ensures Tracked(Apply(env, s, op).0, e, days, ops + [op])
  {
    hide Consistent, SomeTickOn;
    var table := s.c.plant.store.scheduler.occurrences;
    var k :| 0 <= k < |s.entries| && s.entries[k] == e && TrackedAt(table, days, ops, k);
    LaterAt(table, days, ops, op, k);
    var after := Apply(env, s, op).0;
    if EntriesAcceptable(op.entries) {
      var q :| 0 <= q < |op.entries| && op.entries[q] == e;
      ConfigureKeepsOccurrences(s.entries, s.c.plant.store.scheduler, op.entries, k, q);
      assert after.entries[q] == e && TrackedAt(after.c.plant.store.scheduler.occurrences, days, ops + [op], q);
    } else {
      assert after.entries[k] == e;
    }
  }

  lemma ServiceTracked(env: Environment, s: Scheduling, e: Entry, days: seq<u64>, ops: seq<Op>, call: Call)
    requires Sane(s) && Tracked(s, e, days, ops)
    ensures Tracked(Apply(env, s, ServiceOp(call)).0, e, days, ops + [ServiceOp(call)])
  {
    hide Consistent, Serve, TrackedAt;
    var table := s.c.plant.store.scheduler.occurrences;
    var k :| 0 <= k < |s.entries| && s.entries[k] == e && TrackedAt(table, days, ops, k);
    LaterAt(table, days, ops, ServiceOp(call), k);
    ServeFrames(env, s.c, call);
    assert Apply(env, s, ServiceOp(call)).0.entries[k] == e;
  }

  lemma {:induction false} RunTracked(env: Environment, s: Scheduling, ops: seq<Op>, e: Entry)
    requires Sane(s) && (forall i | 0 <= i < |ops| :: OpSane(ops[i]))
    requires e in s.entries && Keeps(ops, e) && NonDecreasing(ops)
    ensures var (after, log) := RunOps(env, s, ops); Tracked(after, e, DaysOf(log, e.id), ops)
    decreases |ops|
  {
    hide Apply, Tracked, NonDecreasing, DaysOf, OpSane;
    if ops == [] {
      StartTracked(s, e);
    } else {
      var earlier, last := ops[..|ops| - 1], ops[|ops| - 1];
      assert ops == earlier + [last];
      Earlier(earlier, last);
      RunTracked(env, s, earlier, e);
      var (before, log) := RunOps(env, s, earlier);
      var (after, more) := Apply(env, before, last);
      DaysOfJoin(log, more, e.id);
      StepTracked(env, before, e, DaysOf(log, e.id), earlier, last);
    }
  }

  lemma StartTracked(s: Scheduling, e: Entry)
    requires Sane(s) && e in s.entries
    ensures Tracked(s, e, DaysOf([], e.id), [])
  {
    var k :| 0 <= k < |s.entries| && s.entries[k] == e;
  }

  lemma Earlier(earlier: seq<Op>, last: Op)
    requires NonDecreasing(earlier + [last])
    ensures NonDecreasing(earlier)
  {
    var all := earlier + [last];
    assert forall i | 0 <= i < |earlier| :: all[i] == earlier[i];
  }

  lemma StepTracked(env: Environment, s: Scheduling, e: Entry, days: seq<u64>, ops: seq<Op>, op: Op)
    requires Sane(s) && OpSane(op) && Tracked(s, e, days, ops) && NonDecreasing(ops + [op])
    requires op.ConfigureOp? ==> e in op.entries
    ensures var (after, log) := Apply(env, s, op); Tracked(after, e, days + DaysOf(log, e.id), ops + [op])
  {
    hide Tracked, Process, Configure, Serve, Sane;
    match op {
      case ProcessOp(time) => TickTracked(env, s, e, days, ops, time);
      case ConfigureOp(_, _) => ConfigureTracked(env, s, e, days, ops, op); NothingHandled(days, e.id);
      case ServiceOp(call) => ServiceTracked(env, s, e, days, ops, call); NothingHandled(days, e.id);
    }
  }

  lemma NothingHandled(days: seq<u64>, id: Text)
    ensures days + DaysOf([], id) == days
  {
  }

  /**
   Over any interleaving of ticks, reconfigurations and other service calls, with days that never go back: an entry that
   every reconfiguration keeps unchanged, at whatever index, is handled at most once per day.
   */
  lemma HandledAtMostOnce(env: Environment, s: Scheduling, ops: seq<Op>, e: Entry)
    requires Sane(s) && (forall i | 0 <= i < |ops| :: OpSane(ops[i]))
    requires e in s.entries && Keeps(ops, e) && NonDecreasing(ops)
    ensures var days := DaysOf(RunOps(env, s, ops).1, e.id); forall i, j | 0 <= i < j < |days| :: days[i] < days[j]
  {
    hide RunOps, DaysOf;
    RunTracked(env, s, ops, e);
  }
}
