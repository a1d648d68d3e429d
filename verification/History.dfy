/** The history of program executions: a fold of the event trace into at most sixteen records. */
module Histories {
  import opened Bytes
  import opened Common
  import opened RuntimeStates
  import opened Plants

  const ID_CAPACITY: nat := 48

  datatype Timestamp = Timestamp(value: u64, valid: bool)

  datatype Record = Record(
    program: Text,
    origin: Origin,
    schedule: Option<Text>,
    startedAt: Timestamp,
    endedAt: Timestamp,
    planned: u32,
    actual: u64,
    result: ExecutionResult,
    stepsStarted: nat,
    stepsCompleted: nat,
    lastZone: Option<Text>)

  datatype History = History(records: seq<Record>, inFlight: Option<Record>)

  const EMPTY: History := History([], None)

  /** An id cut to the capacity of its field, terminator included. */
  function CopyId(id: Text): Text {
    if |id| < ID_CAPACITY then id else id[..ID_CAPACITY - 1]
  }

  function CopySchedule(schedule: Option<Text>): Option<Text> {
    if schedule.Some? then Some(CopyId(schedule.value)) else None
  }

  function StartRecord(event: Event): Record
    requires event.Started?
  {
    Record(CopyId(event.program.id), event.context.origin, CopySchedule(event.context.schedule), Timestamp(event.time, true),
           Timestamp(0, false), event.planned, 0, ExecutionCompleted, 0, 0, None)
  }

  /**
   One event, with the answer that the repository of the history would give to an append. An append fails when the table is full or
   the repository refuses; the record then stays in flight, and takes up the steps of the next execution.
   */
  function HandleStored(h: History, event: Event, answer: IrrigationResult): History {
    match event
    case Started(_, _, _, _) => if h.inFlight.Some? then h else h.(inFlight := Some(StartRecord(event)))
    case StepStarted(_, _, zone) =>
      if h.inFlight.None? then h
      else
        var record := h.inFlight.value;
        h.(inFlight := Some(record.(stepsStarted := record.stepsStarted + 1, lastZone := Some(CopyId(zone)))))
    case StepCompleted(_, _, _) =>
      if h.inFlight.None? then h
      else h.(inFlight := Some(h.inFlight.value.(stepsCompleted := h.inFlight.value.stepsCompleted + 1)))
    case Terminated(time, result) =>
      if h.inFlight.None? then h
      else
        var record := h.inFlight.value;
        var ended := record.(endedAt := Timestamp(time, true), actual := Elapsed(time, record.startedAt.value), result := result);
        if |h.records| >= MAX_HISTORY_RECORDS || answer != Ok then h.(inFlight := Some(ended)) else History(h.records + [ended], None)
    case ZoneEvent(_, _, _) => h
  }

  /** Without a repository, as the firmware has it. */
  function HandleEvent(h: History, event: Event): History {
    HandleStored(h, event, Ok)
  }

  function Fold(h: History, events: seq<Event>): History {
    if events == [] then h else HandleEvent(Fold(h, events[..|events| - 1]), events[|events| - 1])
  }

  /** The history object: a fixed table, a count, the record in flight, and a repository that may refuse any append, or none. */
  class ProgramExecutionHistory {
    const repository: Option<nat -> IrrigationResult>
    const records: array<Record>
    var recordCount: nat
    var active: bool
    var record: Record
    var appends: nat

    ghost predicate Valid()
      reads this
    {
      records.Length == MAX_HISTORY_RECORDS && recordCount <= MAX_HISTORY_RECORDS
    }

    ghost function View(): History
      requires Valid()
      reads this, records
    {
      History(records[..recordCount], if active then Some(record) else None)
    }

    /** What the repository says to the next append. */
    function Answer(): IrrigationResult
      reads this
    {
      if repository.Some? then repository.value(appends) else Ok
    }

    constructor (repository: Option<nat -> IrrigationResult>)
      ensures Valid() && fresh(records) && View() == EMPTY && this.repository == repository && appends == 0
    {
      var blank := Record([], ManualOrigin, None, Timestamp(0, false), Timestamp(0, false), 0, 0, ExecutionCompleted, 0, 0, None);
      this.repository := repository;
      records := new Record[MAX_HISTORY_RECORDS](_ => blank);
      recordCount, active, record, appends := 0, false, blank, 0;
    }

    /** The repository is asked only where there is a record and room for it; what it refuses stays in flight. */
    method AppendTerminalRecord() returns (result: IrrigationResult)
      requires Valid()
      modifies this, records
      ensures Valid()
      ensures result == if old(active) && old(recordCount) < MAX_HISTORY_RECORDS then old(Answer()) else Rejected
      ensures appends == old(appends) + if repository.Some? && old(active) && old(recordCount) < MAX_HISTORY_RECORDS then 1 else 0
      ensures View() == if result == Ok then History(old(View()).records + [old(record)], None) else old(View())
    {
      if !active || recordCount >= MAX_HISTORY_RECORDS { return Rejected; }
      if repository.Some? {
        result := repository.value(appends);
        appends := appends + 1;
        if result != Ok { return; }
      }
      records[recordCount] := record;
      recordCount := recordCount + 1;
      active := false;
      return Ok;
    }

    method Handle(event: Event)
      requires Valid()
      modifies this, records
      ensures Valid() && View() == HandleStored(old(View()), event, old(Answer()))
    {
      match event {
        case Started(_, _, _, _) =>
          if active { return; }
          record := StartRecord(event);
          active := true;
        case StepStarted(_, _, zone) =>
          if active { record := record.(stepsStarted := record.stepsStarted + 1, lastZone := Some(CopyId(zone))); }
        case StepCompleted(_, _, _) =>
          if active { record := record.(stepsCompleted := record.stepsCompleted + 1); }
        case Terminated(time, result) =>
          if active {
            record := record.(endedAt := Timestamp(time, true), actual := Elapsed(time, record.startedAt.value), result := result);
            var ignored := AppendTerminalRecord();
          }
        case ZoneEvent(_, _, _) =>
      }
    }
  }
}

/** The history holds the projections of the first sixteen executions of a run, and completed ones lasted long enough. */
module RunHistory {
  import opened Bytes
  import opened Common
  import opened RuntimeStates
  import opened Plants
  import opened ProgramOperations
  import opened ServiceRuns
  import opened Executions
  import opened Histories

  /** What a finished execution leaves in the history. */
  function Projection(e: Execution): Record
    requires Proper(e) && e.end.Some?
  {
    Record(CopyId(e.program.id), e.context.origin, CopySchedule(e.context.schedule), Timestamp(e.startedAt, true),
           Timestamp(e.end.value.0, true), PlannedDuration(e.program), Elapsed(e.end.value.0, e.startedAt), e.end.value.1,
           StepsStarted(e), |e.steps|,
           if StepsStarted(e) == 0 then None else Some(CopyId(e.program.steps[StepsStarted(e) - 1].zone)))
  }

  function Projections(done: seq<Execution>): (records: seq<Record>)
    requires Ended(done)
    ensures |records| == |done| && forall i | 0 <= i < |done| :: records[i] == Projection(done[i])
  {
    if done == [] then [] else Projections(done[..|done| - 1]) + [Projection(done[|done| - 1])]
  }

  function FirstSixteen(records: seq<Record>): seq<Record> {
    if |records| <= MAX_HISTORY_RECORDS then records else records[..MAX_HISTORY_RECORDS]
  }

  lemma {:induction false} FoldJoin(h: History, a: seq<Event>, b: seq<Event>)
    ensures Fold(h, a + b) == Fold(Fold(h, a), b)
    decreases |b|
  {
    if b == [] {
      assert a + b == a;
    } else {
      assert (a + b)[..|a + b| - 1] == a + b[..|b| - 1];
      FoldJoin(h, a, b[..|b| - 1]);
    }
  }

  lemma FoldOne(h: History, event: Event)
    ensures Fold(h, [event]) == HandleEvent(h, event)
  {
    assert [event][..0] == [];
  }

  /** Zone events are ignored. */
  lemma {:induction false} FoldExecutionEvents(h: History, events: seq<Event>)
    ensures Fold(h, events) == Fold(h, ExecutionEvents(events))
    decreases |events|
  {
    if events != [] {
      var before, last := events[..|events| - 1], events[|events| - 1];
      FoldExecutionEvents(h, before);
      if !last.ZoneEvent? {
        assert ExecutionEvents(events)[..|ExecutionEvents(before)|] == ExecutionEvents(before);
      }
    }
  }

  /** The record in flight after the start and some completed steps. */
  function PartRecord(e: Execution, completed: nat): Record
    requires Proper(e) && completed <= |e.steps|
  {
    Record(CopyId(e.program.id), e.context.origin, CopySchedule(e.context.schedule), Timestamp(e.startedAt, true),
           Timestamp(0, false), PlannedDuration(e.program), 0, ExecutionCompleted, completed, completed,
           if completed == 0 then None else Some(CopyId(e.program.steps[completed - 1].zone)))
  }

  /** A step that started and completed moves the record in flight on. */
  lemma OneStep(h: History, e: Execution, i: nat)
    requires Proper(e) && i < |e.steps|
    ensures var before, zone := h.(inFlight := Some(PartRecord(e, i))), e.program.steps[i].zone;
            HandleEvent(HandleEvent(before, StepStarted(e.steps[i].0, i, zone)), StepCompleted(e.steps[i].1, i, zone)) ==
            h.(inFlight := Some(PartRecord(e, i + 1)))
  {
    hide PlannedDuration, ContextValid, CopyId, CopySchedule;
  }

  lemma {:induction false} FoldSteps(h: History, e: Execution, completed: nat)
    requires Proper(e) && completed <= |e.steps| && h.inFlight == Some(PartRecord(e, 0))
    ensures Fold(h, RenderSteps(e.program, e.steps[..completed])) == h.(inFlight := Some(PartRecord(e, completed)))
    decreases completed
  {
    hide PlannedDuration, ContextValid, CopyId, HandleEvent, PartRecord;
    if completed > 0 {
      var i := completed - 1;
      var steps := e.steps[..completed];
      assert steps[..i] == e.steps[..i];
      var started, done := StepStarted(steps[i].0, i, e.program.steps[i].zone), StepCompleted(steps[i].1, i, e.program.steps[i].zone);
      FoldSteps(h, e, i);
      var before := RenderSteps(e.program, steps[..i]);
      assert RenderSteps(e.program, steps) == before + [started] + [done];
      FoldJoin(h, before + [started], [done]);
      FoldJoin(h, before, [started]);
      FoldOne(Fold(h, before), started);
      FoldOne(Fold(h, before + [started]), done);
      OneStep(h, e, i);
    }
  }

  /** One finished execution adds its projection, as long as there is room. */
  lemma FoldExecution(h: History, e: Execution)
    requires Proper(e) && e.end.Some? && h.inFlight.None? && |h.records| < MAX_HISTORY_RECORDS
    ensures Fold(h, Render(e)) == History(h.records + [Projection(e)], None)
  {
    hide PlannedDuration, ContextValid, CopyId, RenderSteps, Fold;
    var start := Started(e.startedAt, e.program, PlannedDuration(e.program), e.context);
    var steps := RenderSteps(e.program, e.steps);
    var running := if e.running.Some? then [StepStarted(e.running.value, |e.steps|, e.program.steps[|e.steps|].zone)] else [];
    var end := Terminated(e.end.value.0, e.end.value.1);
    var h1 := h.(inFlight := Some(PartRecord(e, 0)));
    FoldOne(h, start);
    FoldJoin(h, [start], steps);
    assert e.steps[..|e.steps|] == e.steps;
    FoldSteps(h1, e, |e.steps|);
    FoldJoin(h, [start] + steps, running);
    var h2 := Fold(h, [start] + steps);
    if e.running.Some? { FoldOne(h2, running[0]); } else { FoldNone(h2); }
    FoldJoin(h, [start] + steps + running, [end]);
    FoldOne(Fold(h, [start] + steps + running), end);
  }

  lemma FoldNone(h: History)
    ensures Fold(h, []) == h
  {
  }

  /** A full table never changes again. */
  lemma {:induction false} FullStays(h: History, events: seq<Event>)
    requires |h.records| == MAX_HISTORY_RECORDS
    ensures Fold(h, events).records == h.records
    decreases |events|
  {
    if events != [] { FullStays(h, events[..|events| - 1]); }
  }

  lemma {:induction false} FoldAll(done: seq<Execution>)
    requires Ended(done)
    ensures Fold(EMPTY, RenderAll(done)).records == FirstSixteen(Projections(done))
    ensures |done| <= MAX_HISTORY_RECORDS ==> Fold(EMPTY, RenderAll(done)).inFlight.None?
    decreases |done|
  {
    hide Fold, Projection, Render;
    if done == [] {
      FoldNone(EMPTY);
    } else {
      var before, last := done[..|done| - 1], done[|done| - 1];
      FoldAll(before);
      FoldJoin(EMPTY, RenderAll(before), Render(last));
      var h := Fold(EMPTY, RenderAll(before));
      if |before| < MAX_HISTORY_RECORDS {
        FoldExecution(h, last);
      } else {
        FullStays(h, Render(last));
      }
    }
  }

  /** An execution in flight has no record yet. */
  lemma {:induction false} FoldUnfinished(h: History, events: seq<Event>)
    requires forall i | 0 <= i < |events| :: !events[i].Terminated?
    ensures Fold(h, events).records == h.records
    decreases |events|
  {
    if events != [] { FoldUnfinished(h, events[..|events| - 1]); }
  }

  lemma {:induction false} StepsDoNotEnd(program: Program, steps: seq<(u64, u64)>)
    requires |steps| <= |program.steps|
    ensures forall i | 0 <= i < |RenderSteps(program, steps)| :: !RenderSteps(program, steps)[i].Terminated?
    decreases |steps|
  {
    if steps != [] { StepsDoNotEnd(program, steps[..|steps| - 1]); }
  }

  /**
   The trace of every run, from READY with nothing recorded, is the executions that ended, in order, and the one in flight
   if a program is active; whatever happens later, the executions that ended stay.
   */
  lemma RunIsTraced(env: Environment, c: Controller, calls: seq<Call>, more: seq<Call>) returns (l: Ledger, m: Ledger)
    requires Fresh(c) && Monotone(env)
    ensures Consistent(c)
    ensures var d := Run(env, c, calls); var e := Run(env, d, more);
            && Recorded(env, d, l) && Recorded(env, e, m) && l.done <= m.done
    ensures var d := Run(env, c, calls);
            && Ended(l.done) && (l.current.Some? <==> Active(d)) && (l.current.Some? ==> Proper(l.current.value))
            && ExecutionEvents(d.plant.events) == RenderAll(l.done) + if l.current.Some? then Render(l.current.value) else []
  {
    hide Run, Render, RenderAll, Proper, AtPhase, InTime;
    FreshIsRecorded(env, c);
    l := RunMoves(env, c, Ledger([], None), calls);
    m := RunMoves(env, Run(env, c, calls), l, more);
  }

  lemma FreshIsRecorded(env: Environment, c: Controller)
    requires Fresh(c)
    ensures Consistent(c) && Recorded(env, c, Ledger([], None))
  {
    hide InitialZones, ZonesAcceptable;
  }

  lemma {:induction false} DelayStays(env: Environment, c: Controller, calls: seq<Call>)
    requires Fresh(c) && Monotone(env)
    ensures Consistent(c) && Delay(Run(env, c, calls)) == Delay(c)
  {
    hide Serve, Fresh;
    assert Consistent(c) by { FreshIsRecorded(env, c); }
    if calls != [] {
      DelayStays(env, c, calls[..|calls| - 1]);
      ServeFrames(env, Run(env, c, calls[..|calls| - 1]), calls[|calls| - 1]);
    }
  }

  /**
   In every run, whatever other calls interfere, the records are the projections of the first sixteen executions, and an
   execution recorded as COMPLETED lasted at least the pre-open delay, all its steps and its final delay, hence at least
   the planned duration.
   */
  lemma HistoryOfRun(env: Environment, c: Controller, calls: seq<Call>) returns (l: Ledger)
    requires Fresh(c) && Monotone(env)
    ensures Consistent(c) && Ended(l.done) && Recorded(env, Run(env, c, calls), l)
    ensures var d := Run(env, c, calls); var records := Fold(EMPTY, d.plant.events).records;
            && records == FirstSixteen(Projections(l.done))
            && forall k | 0 <= k < |records| && records[k].result == ExecutionCompleted ::
                 && records[k].stepsStarted == records[k].stepsCompleted == |l.done[k].program.steps|
                 && records[k].actual >= Delay(c) + StepsDuration(l.done[k].program.steps) + l.done[k].program.postDelay
                 && records[k].actual >= records[k].planned
  {
    hide Run, Fresh, Render, RenderAll, AtPhase, InTime, StepsDuration, HandleEvent, Fold, ExecutionEvents, Ongoing, Idle, Proper, Projection,
         LongEnough, PlannedDuration, ContextValid;
    var ignored;
    l, ignored := RunIsTraced(env, c, calls, []);
    var d := Run(env, c, calls);
    DelayStays(env, c, calls);
    FoldExecutionEvents(EMPTY, d.plant.events);
    FoldAll(l.done);
    var last := if l.current.Some? then Render(l.current.value) else [];
    FoldJoin(EMPTY, RenderAll(l.done), last);
    if l.current.Some? {
      CurrentIsOpen(env, d, l);
      CurrentDoesNotEnd(l.current.value);
      FoldUnfinished(Fold(EMPTY, RenderAll(l.done)), last);
    } else {
      FoldNone(Fold(EMPTY, RenderAll(l.done)));
    }
    forall k | 0 <= k < |l.done| && l.done[k].end.value.1 == ExecutionCompleted
      ensures CompletedFully(Projections(l.done)[k], l.done[k], Delay(c))
    {
      assert Proper(l.done[k]) && LongEnough(Delay(c), l.done[k]);
      CompletedRecord(l.done[k], Delay(c));
    }
    forall k | 0 <= k < |l.done| ensures Projections(l.done)[k].result == l.done[k].end.value.1 { ResultOf(l.done[k]); }
  }

  /** Every step was started and completed, and the time between the ends is no less than planned. */
  predicate CompletedFully(r: Record, e: Execution, delay: u32) {
    && r.stepsStarted == r.stepsCompleted == |e.program.steps|
    && r.actual >= delay + StepsDuration(e.program.steps) + e.program.postDelay && r.actual >= r.planned
  }

  lemma CompletedRecord(e: Execution, delay: u32)
    requires Proper(e) && e.end.Some? && e.end.value.1 == ExecutionCompleted && LongEnough(delay, e)
    ensures CompletedFully(Projection(e), e, delay)
  {
  }

  lemma ResultOf(e: Execution)
    requires Proper(e) && e.end.Some?
    ensures Projection(e).result == e.end.value.1
  {
  }

  lemma CurrentIsOpen(env: Environment, c: Controller, l: Ledger)
    requires Recorded(env, c, l) && l.current.Some?
    ensures Proper(l.current.value) && l.current.value.end.None?
  {
    hide Render, RenderAll, ExecutionEvents, InTime;
  }

  lemma CurrentDoesNotEnd(e: Execution)
    requires Proper(e) && e.end.None?
    ensures forall i | 0 <= i < |Render(e)| :: !Render(e)[i].Terminated?
  {
    hide RenderSteps, PlannedDuration, ContextValid;
    StepsDoNotEnd(e.program, e.steps);
  }

  /** Records are only ever added: an earlier history is a prefix of a later one. */
  lemma HistoryGrows(h: History, events: seq<Event>)
    ensures h.records <= Fold(h, events).records
    decreases |events|
  {
    if events != [] { HistoryGrows(h, events[..|events| - 1]); }
  }
}
