/** The records of the history, field by field, and how long the programs of a configuration run. */
module RunRecords {
  import opened Bytes
  import opened Common
  import opened Configuration
  import opened Plants
  import opened ProgramOperations
  import opened ServiceRuns
  import opened Executions
  import opened Histories
  import opened RunHistory

  /** The durations of the steps, added up from the first. */
  function Total(steps: seq<Step>): nat {
    if steps == [] then 0 else steps[0].duration + Total(steps[1..])
  }

  lemma {:induction false} TotalAppend(steps: seq<Step>, last: Step)
    ensures Total(steps + [last]) == Total(steps) + last.duration
    decreases |steps|
  {
    if steps == [] {
      assert [last][1..] == [];
      assert Total([last]) == last.duration + Total([]);
    } else {
      assert (steps + [last])[0] == steps[0] && (steps + [last])[1..] == steps[1..] + [last];
      TotalAppend(steps[1..], last);
    }
  }

  lemma {:induction false} DurationIsTotal(steps: seq<Step>)
    ensures StepsDuration(steps) == Total(steps)
    decreases |steps|
  {
    if steps != [] {
      var init, last := steps[..|steps| - 1], steps[|steps| - 1];
      DurationIsTotal(init);
      TotalAppend(init, last);
      assert steps == init + [last];
    }
  }

  /** The planned duration is what the steps and the final delay add up to, or the largest number of 32 bits. */
  lemma PlannedIsTheSum(program: Program)
    ensures var total := Total(program.steps) + program.postDelay;
            PlannedDuration(program) == if total <= 0xffff_ffff then total else 0xffff_ffff
  {
    DurationIsTotal(program.steps);
  }

  /** An id as the history keeps it: its first 47 characters. */
  predicate KeptId(kept: Text, id: Text) {
    if |id| <= 47 then kept == id else |kept| == 47 && kept == id[..47]
  }

  /** What a record says about its execution. */
  predicate Tells(r: Record, e: Execution)
    requires Proper(e) && e.end.Some?
  {
    var total, started := Total(e.program.steps) + e.program.postDelay, |e.steps| + if e.running.Some? then 1 else 0;
    && KeptId(r.program, e.program.id) && r.origin == e.context.origin
    && (if e.context.schedule.Some? then r.schedule.Some? && KeptId(r.schedule.value, e.context.schedule.value) else r.schedule == None)
    && r.startedAt == Timestamp(e.startedAt, true) && r.endedAt == Timestamp(e.end.value.0, true)
    && r.planned == (if total <= 0xffff_ffff then total else 0xffff_ffff)
    && r.actual == (e.end.value.0 as int - e.startedAt as int) % 0x1_0000_0000_0000_0000
    && r.result == e.end.value.1
    && r.stepsStarted == started && r.stepsCompleted == |e.steps|
    && (if started == 0 then r.lastZone == None
        else r.lastZone.Some? && KeptId(r.lastZone.value, e.program.steps[started - 1].zone))
  }

  lemma ProjectionTells(e: Execution)
    requires Proper(e) && e.end.Some?
    ensures Tells(Projection(e), e)
  {
    PlannedIsTheSum(e.program);
  }

  /**
   In every run, the history is one record for each of the first sixteen executions, in order, and each record tells of its
   execution; a completed one lasted at least the delay of the valve, its steps and its final delay.
   */
  lemma RecordsTell(env: Environment, c: Controller, calls: seq<Call>) returns (l: Ledger)
    requires Fresh(c) && Monotone(env)
    ensures Consistent(c) && Ended(l.done) && Recorded(env, Run(env, c, calls), l)
    ensures var records := Fold(EMPTY, Run(env, c, calls).plant.events).records;
            && |records| == (if |l.done| <= 16 then |l.done| else 16)
            && (forall k | 0 <= k < |records| :: Tells(records[k], l.done[k]))
            && forall k | 0 <= k < |records| && records[k].result == ExecutionCompleted ::
                 records[k].actual >= Delay(c) + Total(l.done[k].program.steps) + l.done[k].program.postDelay
  {
    hide Run, Fresh, Fold, Projection, Tells, StepsDuration, ExecutionEvents, RenderAll, Proper;
    l := HistoryOfRun(env, c, calls);
    var records := Fold(EMPTY, Run(env, c, calls).plant.events).records;
    forall k | 0 <= k < |records| ensures Tells(records[k], l.done[k]) { ProjectionTells(l.done[k]); }
    forall k | 0 <= k < |records| ensures StepsDuration(l.done[k].program.steps) == Total(l.done[k].program.steps) {
      DurationIsTotal(l.done[k].program.steps);
    }
  }

  /** A record ends in the table exactly if there is room and the repository accepts it; otherwise it stays in flight, ended. */
  lemma EndedRecordIsKept(h: History, time: u64, result: ExecutionResult, answer: IrrigationResult)
    requires h.inFlight.Some? && |h.records| <= 16
    ensures var before, after := h.inFlight.value, HandleStored(h, Terminated(time, result), answer);
            var stored := |h.records| < 16 && answer == Ok;
            && after.records[..|h.records|] == h.records && |after.records| == |h.records| + (if stored then 1 else 0)
            && (stored <==> after.inFlight == None)
            && var r := if stored then after.records[|h.records|] else after.inFlight.value;
               && r.result == result && r.endedAt == Timestamp(time, true)
               && r.actual == (time as int - before.startedAt.value as int) % 0x1_0000_0000_0000_0000
               && r == before.(result := r.result, endedAt := r.endedAt, actual := r.actual)
  {
  }

  // ----- Configured programs -----

  /** The program that runs has the name, the steps in order and the durations that are configured, and no final delay. */
  predicate Runs(program: Program, configured: ProgramConfiguration) {
    && program.id == configured.displayName && program.postDelay == 0 && |program.steps| == |configured.steps|
    && forall j | 0 <= j < |program.steps| ::
         program.steps[j].zone == configured.steps[j].zoneId && program.steps[j].duration == configured.steps[j].durationMs
  }

  function ConfiguredTotal(steps: seq<StepConfiguration>): nat {
    if steps == [] then 0 else steps[0].durationMs + ConfiguredTotal(steps[1..])
  }

  lemma {:induction false} TotalIsConfigured(steps: seq<Step>, configured: seq<StepConfiguration>)
    requires |steps| == |configured| && forall j | 0 <= j < |steps| :: steps[j].duration == configured[j].durationMs
    ensures Total(steps) == ConfiguredTotal(configured)
    decreases |steps|
  {
    if steps != [] { TotalIsConfigured(steps[1..], configured[1..]); }
  }

  /** A configured program that is recorded as COMPLETED lasted at least as long as its configured steps. */
  lemma CompletedAsConfigured(env: Environment, c: Controller, calls: seq<Call>, configured: ProgramConfiguration, k: nat) returns (l: Ledger)
    requires Fresh(c) && Monotone(env)
    ensures Consistent(c) && Ended(l.done) && Recorded(env, Run(env, c, calls), l)
    ensures var records := Fold(EMPTY, Run(env, c, calls).plant.events).records;
            k < |records| ==>
              && k < |l.done| && Tells(records[k], l.done[k])
              && (Runs(l.done[k].program, configured) && records[k].result == ExecutionCompleted ==>
                  records[k].actual >= Delay(c) + ConfiguredTotal(configured.steps) && records[k].actual >= records[k].planned)
  {
    hide Run, Fresh, Fold, Tells, ExecutionEvents, RenderAll, Proper, Recorded;
    l := RecordsTell(env, c, calls);
    var records := Fold(EMPTY, Run(env, c, calls).plant.events).records;
    if k < |records| {
      PlannedIsLess(records[k], l.done[k]);
      if Runs(l.done[k].program, configured) { TotalIsConfigured(l.done[k].program.steps, configured.steps); }
    }
  }

  lemma PlannedIsLess(r: Record, e: Execution)
    requires Proper(e) && e.end.Some? && Tells(r, e)
    ensures r.planned <= Total(e.program.steps) + e.program.postDelay
  {
  }
}
