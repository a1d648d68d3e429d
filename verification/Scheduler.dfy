/** The weekly scheduler: what configuring and processing do to its entries and to the occurrences the store keeps. */
module Schedules {
  import opened Bytes
  import opened Common
  import opened RuntimeStates
  import opened Plants
  import opened ProgramOperations
  import MasterOperations

  datatype SchedulerTime = SchedulerTime(week: u32, weekday: byte, hour: byte, minute: byte)

  /** An entry with its id read out of the buffer it points to; `program` is the slot of its program. */
  datatype Entry = Entry(id: Text, enabled: bool, weekdayMask: byte, hour: byte, minute: byte, program: nat)

  predicate TimeValid(time: SchedulerTime) {
    time.weekday < 7 && time.hour < 24 && time.minute < 60
  }

  predicate EntryValid(entry: Entry) {
    0 < entry.weekdayMask < 0x80 && entry.hour < 24 && entry.minute < 60
  }

  predicate EntriesAcceptable(entries: seq<Entry>) {
    && |entries| <= MAX_SCHEDULES
    && (forall i | 0 <= i < |entries| :: EntryValid(entries[i]))
    && DistinctIds(entries)
  }

  predicate DistinctIds(entries: seq<Entry>) {
    forall i, j | 0 <= i < j < |entries| :: entries[i].id != entries[j].id
  }

  // ----- Occurrences -----

  /** The number of a day: one occurrence of every entry that is due on it. */
  function OccurrenceFor(time: SchedulerTime): (occurrence: u64)
    requires TimeValid(time)
  {
    time.week * 7 + time.weekday
  }

  /** Two times have the same occurrence only on the same day, and no day has the number of the sentinel. */
  lemma OccurrenceIsTheDay(a: SchedulerTime, b: SchedulerTime)
    requires TimeValid(a) && TimeValid(b)
    ensures OccurrenceFor(a) == OccurrenceFor(b) <==> a.week == b.week && a.weekday == b.weekday
    ensures OccurrenceFor(a) != UNHANDLED
  {
  }

  function Power(day: nat): nat
    requires day < 7
  {
    [1, 2, 4, 8, 16, 32, 64][day]
  }

  /** The bit of a weekday in the mask. */
  predicate OnWeekday(mask: byte, weekday: byte)
    requires weekday < 7
  {
    mask / Power(weekday) % 2 == 1
  }

  predicate Due(entry: Entry, time: SchedulerTime)
    requires TimeValid(time)
  {
    && entry.enabled && OnWeekday(entry.weekdayMask, time.weekday)
    && time.hour * 60 + time.minute == entry.hour * 60 + entry.minute
  }

  // ----- Configuring -----

  function FindEntry(entries: seq<Entry>, entry: Entry, from: nat): (found: Option<nat>)
    requires from <= |entries|
    ensures found.Some? ==> from <= found.value < |entries| && entries[found.value] == entry
    ensures found.Some? ==> forall i | from <= i < found.value :: entries[i] != entry
    ensures found.None? ==> forall i | from <= i < |entries| :: entries[i] != entry
    decreases |entries| - from
  {
    if from == |entries| then None else if entries[from] == entry then Some(from) else FindEntry(entries, entry, from + 1)
  }

  /** What is kept of an entry's past: its occurrence under the old index, if the entry was there unchanged. */
  function Preserved(live: seq<Entry>, table: SchedulerRuntime, entry: Entry): Occurrence {
    match FindEntry(live, entry, 0)
    case None => Occurrence(0, NoOccurrence)
    case Some(p) => if p < table.count && p < MAX_SCHEDULES then table.occurrences[p] else Occurrence(0, NoOccurrence)
  }

  function OrNever(occurrence: Occurrence): Occurrence {
    if occurrence.status == NoOccurrence then NEVER else occurrence
  }

  function Reconfigured(live: seq<Entry>, table: SchedulerRuntime, entries: seq<Entry>): SchedulerRuntime
    requires |entries| <= MAX_SCHEDULES
  {
    var rows: seq<Occurrence> :=
      seq(MAX_SCHEDULES, i requires 0 <= i < MAX_SCHEDULES =>
            if i < |entries| then OrNever(Preserved(live, table, entries[i])) else table.occurrences[i]);
    SchedulerRuntime(rows, |entries|)
  }

  /** A rejected list changes nothing. */
  function Configure(live: seq<Entry>, table: SchedulerRuntime, entries: seq<Entry>):
      (seq<Entry>, SchedulerRuntime, IrrigationResult)
  {
    if EntriesAcceptable(entries) then (entries, Reconfigured(live, table, entries), Ok) else (live, table, Rejected)
  }

  /** An unchanged entry keeps its occurrence wherever it moved; every other entry starts unhandled. */
  lemma ConfigureKeepsOccurrences(live: seq<Entry>, table: SchedulerRuntime, entries: seq<Entry>, p: nat, q: nat)
    requires DistinctIds(live) && |live| == table.count <= MAX_SCHEDULES
    requires EntriesAcceptable(entries) && q < |entries|
    ensures var after := Configure(live, table, entries).1;
            && (p < |live| && live[p] == entries[q] ==> after.occurrences[q] == OrNever(table.occurrences[p]))
            && (entries[q] !in live ==> after.occurrences[q] == NEVER)
  {
    var found := FindEntry(live, entries[q], 0);
    if p < |live| && live[p] == entries[q] {
      assert found.Some? && live[found.value].id == live[p].id;
    } else if entries[q] !in live {
      assert found.None?;
    }
  }

  // ----- Processing -----

  datatype Handled = Handled(entry: Entry, occurrence: u64, status: OccurrenceStatus)

  /** Starts the program of a due entry, unless some program is active. */
  function Handle(env: Environment, c: Controller, entry: Entry, programs: seq<Program>): (Controller, OccurrenceStatus)
    requires entry.program < |programs|
  {
    if Active(c) then (c, SkippedBusy)
    else
      var (started, result) := StartProgram(env, c, programs[entry.program], StartContext(ScheduledOrigin, Some(entry.id)));
      (started, if result == Ok then OccurrenceStarted else OccurrenceRejected)
  }

  predicate Fits(c: Controller, entries: seq<Entry>, programs: seq<Program>) {
    && |entries| == c.plant.store.scheduler.count <= MAX_SCHEDULES
    && forall i | 0 <= i < |entries| :: entries[i].program < |programs|
  }

  /** Handles an entry and records under its index that it did. */
  function HandleAt(env: Environment, c: Controller, entries: seq<Entry>, programs: seq<Program>, time: SchedulerTime, index: nat):
      (r: (Controller, OccurrenceStatus))
    requires TimeValid(time) && Fits(c, entries, programs) && index < |entries|
    ensures r.1 != NoOccurrence
    ensures r.0.plant.store.scheduler ==
      c.plant.store.scheduler.(occurrences := c.plant.store.scheduler.occurrences[index := Occurrence(OccurrenceFor(time), r.1)])
  {
    var (handled, status) := Handle(env, c, entries[index], programs);
    HandleKeepsTable(env, c, entries[index], programs);
    (WithStore(handled, RecordOccurrence(handled.plant.store, index, OccurrenceFor(time), status).0), status)
  }

  /** The entries from `index` on, each against the occurrences as they were when the call began. */
  function ProcessFrom(env: Environment, c: Controller, entries: seq<Entry>, programs: seq<Program>, snapshot: OccurrenceTable,
                       time: SchedulerTime, index: nat): (r: (Controller, seq<Handled>))
    requires TimeValid(time) && Fits(c, entries, programs) && index <= |entries|
    decreases |entries| - index
  {
    if index == |entries| then (c, [])
    else if !Due(entries[index], time) || snapshot[index].last == OccurrenceFor(time) then
      ProcessFrom(env, c, entries, programs, snapshot, time, index + 1)
    else
      var (next, status) := HandleAt(env, c, entries, programs, time, index);
      var (done, log) := ProcessFrom(env, next, entries, programs, snapshot, time, index + 1);
      (done, [Handled(entries[index], OccurrenceFor(time), status)] + log)
  }

  function Process(env: Environment, c: Controller, entries: seq<Entry>, programs: seq<Program>, time: SchedulerTime):
      (Controller, seq<Handled>, IrrigationResult)
    requires Fits(c, entries, programs)
  {
    if !TimeValid(time) then (c, [], Rejected)
    else
      var (d, log) := ProcessFrom(env, c, entries, programs, c.plant.store.scheduler.occurrences, time, 0);
      (d, log, Ok)
  }

  /** The status recorded for an entry says what happened to its program. */
  lemma HandleMeans(env: Environment, c: Controller, entry: Entry, programs: seq<Program>)
    requires entry.program < |programs|
    ensures var (d, status) := Handle(env, c, entry, programs);
            && (status == SkippedBusy <==> Active(c)) && (status == SkippedBusy ==> d == c)
            && (status == OccurrenceStarted <==> !Active(c) && Active(d))
            && (status == OccurrenceStarted ==>
                d.program == Some(programs[entry.program]) && d.context == StartContext(ScheduledOrigin, Some(entry.id)))
  {
    hide MasterOperations.OpenMaster;
  }

  lemma HandleKeepsTable(env: Environment, c: Controller, entry: Entry, programs: seq<Program>)
    requires entry.program < |programs|
    ensures Handle(env, c, entry, programs).0.plant.store.scheduler == c.plant.store.scheduler
  {
    hide MasterOperations.OpenMaster;
  }
}

/** The scheduler object. Its entries point into id buffers and program slots that the configuration manager owns. */
module SchedulerServices {
  import opened Bytes
  import opened Common
  import opened RuntimeStates
  import opened StateStores
  import opened Plants
  import opened Boards
  import opened ProgramOperations
  import opened ProgramServices
  import opened Schedules

  /** An entry as it is stored: the id names a buffer and the program a program slot, as the pointers in the original do. */
  datatype EntryRef = EntryRef(id: nat, enabled: bool, weekdayMask: byte, hour: byte, minute: byte, program: nat)

  predicate RefInRange(ref: EntryRef) {
    ref.id < MAX_SCHEDULES && ref.program < MAX_PROGRAMS
  }

  predicate RefsInRange(refs: seq<EntryRef>) {
    forall i | 0 <= i < |refs| :: RefInRange(refs[i])
  }

  function Resolve(ref: EntryRef, ids: seq<Text>): Entry
    requires ref.id < |ids|
  {
    Entry(ids[ref.id], ref.enabled, ref.weekdayMask, ref.hour, ref.minute, ref.program)
  }

  function ResolveAll(refs: seq<EntryRef>, ids: seq<Text>): (entries: seq<Entry>)
    requires RefsInRange(refs) && |ids| == MAX_SCHEDULES
    ensures |entries| == |refs|
    ensures forall i | 0 <= i < |refs| :: entries[i] == Resolve(refs[i], ids)
  {
    seq(|refs|, i requires 0 <= i < |refs| => Resolve(refs[i], ids))
  }

  lemma PreservedIs(live: seq<Entry>, table: SchedulerRuntime, entry: Entry)
    requires |live| == table.count <= MAX_SCHEDULES
    ensures var found := FindEntry(live, entry, 0);
            Preserved(live, table, entry) == if found.Some? then table.occurrences[found.value] else Occurrence(0, NoOccurrence)
  {
  }

  lemma TableIs(now: SchedulerRuntime, live: seq<Entry>, table: SchedulerRuntime, entries: seq<Entry>)
    requires |entries| == now.count <= MAX_SCHEDULES
    requires forall i | 0 <= i < MAX_SCHEDULES :: now.occurrences[i] ==
               if i < |entries| then OrNever(Preserved(live, table, entries[i])) else table.occurrences[i]
    ensures now == Reconfigured(live, table, entries)
  {
    hide Preserved, OrNever;
    assert now.occurrences == Reconfigured(live, table, entries).occurrences;
  }

  class SchedulerService {
    const store: StateStore
    const programService: ProgramService
    const ids: array<Text>
    const programs: array<Program>
    const entries: array<EntryRef>
    var entryCount: nat

    ghost predicate Valid()
      reads this, store, entries
    {
      && programService.Wired() && programService.board.store == store
      && ids.Length == MAX_SCHEDULES && programs.Length == MAX_PROGRAMS && entries.Length == MAX_SCHEDULES
      && entryCount == store.current.scheduler.count <= MAX_SCHEDULES
      && RefsInRange(entries[..entryCount])
    }

    /** The live entries with their ids as the buffers hold them now. */
    ghost function Entries(): (live: seq<Entry>)
      requires Valid()
      reads this, store, entries, ids
      ensures |live| == entryCount
      ensures forall i | 0 <= i < entryCount :: live[i] == Resolve(entries[i], ids[..])
    {
      ResolveAll(entries[..entryCount], ids[..])
    }

    constructor (programService: ProgramService, ids: array<Text>, programs: array<Program>)
      requires programService.Wired() && ids.Length == MAX_SCHEDULES && programs.Length == MAX_PROGRAMS
      requires programService.board.store.current.scheduler.count == 0
      ensures Valid() && Entries() == [] && fresh(entries)
      ensures this.programService == programService && this.ids == ids && this.programs == programs
    {
      this.programService, this.ids, this.programs := programService, ids, programs;
      store := programService.board.store;
      entries := new EntryRef[MAX_SCHEDULES](_ => EntryRef(0, false, 0, 0, 0, 0));
      entryCount := 0;
    }

    /** The old index of an entry that is already there unchanged; ids are compared through the buffers. */
    method FindUnchanged(ref: EntryRef) returns (found: Option<nat>)
      requires Valid() && RefInRange(ref)
      ensures found == FindEntry(Entries(), Resolve(ref, ids[..]), 0)
    {
      for previous := 0 to entryCount
        invariant FindEntry(Entries(), Resolve(ref, ids[..]), previous) == FindEntry(Entries(), Resolve(ref, ids[..]), 0)
      {
        var live := entries[previous];
        if ids[ref.id] == ids[live.id] && ref.enabled == live.enabled && ref.weekdayMask == live.weekdayMask &&
           ref.hour == live.hour && ref.minute == live.minute && ref.program == live.program {
          return Some(previous);
        }
      }
      return None;
    }

    method IdRepeats(given: array<EntryRef>, givenCount: nat, index: nat) returns (repeats: bool)
      requires Valid() && given.Length == MAX_SCHEDULES && index < givenCount <= MAX_SCHEDULES && RefsInRange(given[..givenCount])
      ensures var wanted := ResolveAll(given[..givenCount], ids[..]);
              repeats <==> exists i :: 0 <= i < index && wanted[i].id == wanted[index].id
    {
      ghost var wanted := ResolveAll(given[..givenCount], ids[..]);
      assert wanted[index] == Resolve(given[..givenCount][index], ids[..]);
      for previous := 0 to index
        invariant forall i | 0 <= i < previous :: wanted[i].id != wanted[index].id
      {
        assert wanted[previous] == Resolve(given[..givenCount][previous], ids[..]);
        if ids[given[previous].id] == ids[given[index].id] { return true; }
      }
      return false;
    }

    /** One entry of the list: whether it is valid and its id new, and what is kept of its past. */
    method CheckEntry(given: array<EntryRef>, givenCount: nat, index: nat) returns (accepted: bool, kept: Occurrence)
      requires Valid() && given.Length == MAX_SCHEDULES && index < givenCount <= MAX_SCHEDULES && RefsInRange(given[..givenCount])
      ensures var wanted := ResolveAll(given[..givenCount], ids[..]);
              && (accepted <==> EntryValid(wanted[index]) && forall i | 0 <= i < index :: wanted[i].id != wanted[index].id)
              && (accepted ==> kept == Preserved(Entries(), store.current.scheduler, wanted[index]))
    {
      hide FindEntry, Preserved;
      ghost var wanted := ResolveAll(given[..givenCount], ids[..]);
      kept := Occurrence(0, NoOccurrence);
      var ref := given[index];
      assert ref == given[..givenCount][index] && wanted[index] == Resolve(ref, ids[..]);
      if ref.weekdayMask == 0 || ref.weekdayMask >= 0x80 || ref.hour >= 24 || ref.minute >= 60 { return false, kept; }
      var repeats := IdRepeats(given, givenCount, index);
      if repeats { return false, kept; }
      var found := FindUnchanged(ref);
      PreservedIs(Entries(), store.current.scheduler, wanted[index]);
      if found.Some? && found.value < store.current.scheduler.count { kept := store.current.scheduler.occurrences[found.value]; }
      return true, kept;
    }

    /** The first loop: every entry is valid, no id repeats, and what is kept of each entry's past. */
    method CheckAndPreserve(given: array<EntryRef>, givenCount: nat) returns (accepted: bool, preserved: seq<Occurrence>)
      requires Valid() && given.Length == MAX_SCHEDULES && givenCount <= MAX_SCHEDULES && RefsInRange(given[..givenCount])
      ensures accepted == EntriesAcceptable(ResolveAll(given[..givenCount], ids[..]))
      ensures accepted ==> |preserved| == givenCount
      ensures accepted ==> forall i | 0 <= i < givenCount ::
                preserved[i] == Preserved(Entries(), store.current.scheduler, ResolveAll(given[..givenCount], ids[..])[i])
    {
      hide FindEntry, Preserved, EntryValid, RefsInRange, Resolve;
      ghost var wanted := ResolveAll(given[..givenCount], ids[..]);
      preserved := [];
      for index := 0 to givenCount
        invariant |preserved| == index
        invariant forall i | 0 <= i < index :: EntryValid(wanted[i])
        invariant forall i, j | 0 <= i < j < index :: wanted[i].id != wanted[j].id
        invariant forall i | 0 <= i < index :: preserved[i] == Preserved(Entries(), store.current.scheduler, wanted[i])
      {
        var ok, kept := CheckEntry(given, givenCount, index);
        if !ok { return false, []; }
        preserved := preserved + [kept];
      }
      return true, preserved;
    }

    /** The second loop: the kept occurrences under their new indices. */
    method RecordPreserved(preserved: seq<Occurrence>)
      requires |preserved| == store.current.scheduler.count <= MAX_SCHEDULES
      modifies store
      ensures store.current == old(store.current).(scheduler := store.current.scheduler)
      ensures store.current.scheduler.count == old(store.current.scheduler.count)
      ensures forall i | 0 <= i < MAX_SCHEDULES :: store.current.scheduler.occurrences[i] ==
                if i < |preserved| then OrNever(preserved[i]) else old(store.current.scheduler.occurrences[i])
    {
      for index := 0 to |preserved|
        invariant store.current == old(store.current).(scheduler := store.current.scheduler)
        invariant store.current.scheduler.count == |preserved|
        invariant forall i | 0 <= i < MAX_SCHEDULES :: store.current.scheduler.occurrences[i] ==
                    if i < index then OrNever(preserved[i]) else old(store.current.scheduler.occurrences[i])
      {
        var result;
        if preserved[index].status == NoOccurrence {
          result := store.ResetOccurrence(index);
        } else {
          result := store.RecordOccurrence(index, preserved[index].last, preserved[index].status);
        }
        assert result == Ok;
      }
    }

    /** Occurrences follow unchanged entries to their new index; a rejected list changes nothing. */
    method ConfigureLocked(given: array<EntryRef>, givenCount: nat) returns (result: IrrigationResult)
      requires Valid() && given.Length == MAX_SCHEDULES && given != entries
      requires givenCount <= MAX_SCHEDULES ==> RefsInRange(given[..givenCount])
      modifies this, entries, store
      ensures Valid() && store.current == old(store.current).(scheduler := store.current.scheduler)
      ensures result == if givenCount <= MAX_SCHEDULES && EntriesAcceptable(old(ResolveAll(given[..givenCount], ids[..]))) then Ok else Rejected
      ensures result != Ok ==> store.current == old(store.current) && entries[..entryCount] == old(entries[..entryCount])
      ensures result == Ok ==>
        && entries[..entryCount] == old(given[..givenCount])
        && Entries() == old(ResolveAll(given[..givenCount], ids[..]))
        && store.current.scheduler == Reconfigured(old(Entries()), old(store.current.scheduler), Entries())
    {
      hide Preserved, EntriesAcceptable;
      if givenCount > MAX_SCHEDULES { return Rejected; }
      ghost var wanted := ResolveAll(given[..givenCount], ids[..]);
      ghost var before := Entries();
      ghost var table := store.current.scheduler;
      var accepted, preserved := CheckAndPreserve(given, givenCount);
      if !accepted { return Rejected; }
      result := store.ConfigureScheduler(givenCount);
      RecordPreserved(preserved);
      CopyEntries(given, givenCount);
      entryCount := givenCount;
      assert entries[..entryCount] == given[..givenCount];
      assert Entries() == wanted;
      TableIs(store.current.scheduler, before, table, wanted);
    }

    method CopyEntries(given: array<EntryRef>, givenCount: nat)
      requires given.Length == entries.Length == MAX_SCHEDULES && givenCount <= MAX_SCHEDULES && given != entries
      modifies entries
      ensures entries[..givenCount] == given[..givenCount]
    {
      for index := 0 to givenCount
        invariant entries[..index] == given[..index]
      {
        entries[index] := given[index];
        assert entries[..index + 1] == entries[..index] + [given[index]];
        assert given[..index + 1] == given[..index] + [given[index]];
      }
    }

    /** Handles every due entry that was not handled on this day yet, in order. */
    method Process(now: SchedulerTime) returns (result: IrrigationResult)
      requires Valid()
      modifies programService, programService.master, store, programService.board.valve, programService.board.clock,
               programService.board.bus
      ensures Valid() && Entries() == old(Entries())
      ensures var (view, log, answer) :=
                Schedules.Process(programService.board.Env(), old(programService.View()), old(Entries()), old(programs[..]), now);
              programService.View() == view && result == answer
    {
      hide ProcessFrom, Handle, Due, HandleAt;
      if !TimeValid(now) { return Rejected; }
      ghost var env, live, slots := programService.board.Env(), Entries(), programs[..];
      var occurrence := OccurrenceFor(now);
      var snapshot := store.current.scheduler.occurrences;
      for index := 0 to entryCount
        invariant Valid() && Entries() == live && programs[..] == slots
        invariant Fits(programService.View(), live, slots)
        invariant ProcessFrom(env, programService.View(), live, slots, snapshot, now, index).0
               == ProcessFrom(env, old(programService.View()), live, slots, snapshot, now, 0).0
      {
        ghost var before := programService.View();
        ProcessUnfolds(env, before, live, slots, snapshot, now, index);
        var due := IsDue(entries[index], now);
        if due && snapshot[index].last != occurrence {
          HandleAtIs(env, before, live, slots, now, index);
          var status := HandleEntry(entries[index]);
          var ignored := store.RecordOccurrence(index, occurrence, status);
        }
      }
      ProcessEnds(env, programService.View(), live, slots, snapshot, now);
      return Ok;
    }

    method IsDue(ref: EntryRef, now: SchedulerTime) returns (due: bool)
      requires Valid() && RefInRange(ref) && TimeValid(now)
      ensures due == Due(Resolve(ref, ids[..]), now)
    {
      due := ref.enabled && OnWeekday(ref.weekdayMask, now.weekday) && now.hour * 60 + now.minute == ref.hour * 60 + ref.minute;
    }

    method HandleEntry(ref: EntryRef) returns (status: OccurrenceStatus)
      requires Valid() && RefInRange(ref)
      modifies programService, programService.master, store, programService.board.valve, programService.board.clock,
               programService.board.bus
      ensures (programService.View(), status) ==
        Handle(programService.board.Env(), old(programService.View()), Resolve(ref, ids[..]), programs[..])
    {
      hide StartProgram;
      var active := programService.IsActive();
      if active { return SkippedBusy; }
      var result := programService.Start(programs[ref.program], StartContext(ScheduledOrigin, Some(ids[ref.id])));
      return if result == Ok then OccurrenceStarted else OccurrenceRejected;
    }
  }

  /** Handling an entry, and then recording that it was. */
  lemma HandleAtIs(env: Environment, c: Controller, entries: seq<Entry>, programs: seq<Program>, time: SchedulerTime, index: nat)
    requires TimeValid(time) && Fits(c, entries, programs) && index < |entries|
    ensures var (handled, status) := Handle(env, c, entries[index], programs);
            && handled.plant.store.scheduler == c.plant.store.scheduler
            && HandleAt(env, c, entries, programs, time, index) ==
               (WithStore(handled, RecordOccurrence(handled.plant.store, index, OccurrenceFor(time), status).0), status)
  {
    hide Handle;
    HandleKeepsTable(env, c, entries[index], programs);
  }

  lemma ProcessUnfolds(env: Environment, c: Controller, entries: seq<Entry>, programs: seq<Program>, snapshot: OccurrenceTable,
                       time: SchedulerTime, index: nat)
    requires TimeValid(time) && Fits(c, entries, programs) && index < |entries|
    ensures ProcessFrom(env, c, entries, programs, snapshot, time, index).0 ==
      if Due(entries[index], time) && snapshot[index].last != OccurrenceFor(time)
      then ProcessFrom(env, HandleAt(env, c, entries, programs, time, index).0, entries, programs, snapshot, time, index + 1).0
      else ProcessFrom(env, c, entries, programs, snapshot, time, index + 1).0
  {
    hide HandleAt, Due;
  }

  lemma ProcessEnds(env: Environment, c: Controller, entries: seq<Entry>, programs: seq<Program>, snapshot: OccurrenceTable,
                    time: SchedulerTime)
    requires TimeValid(time) && Fits(c, entries, programs)
    ensures ProcessFrom(env, c, entries, programs, snapshot, time, |entries|).0 == c
  {
  }
}
