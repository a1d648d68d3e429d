/** Replacing the configuration: rebuild the views, reconfigure the scheduler, save, and roll back what cannot be kept. */
module ManagerOperations {
  import opened Common
  import opened Configuration
  import opened RuntimeStates
  import opened Schedules
  import opened SchedulerServices
  import opened SlotTables
  import opened RuntimeViews
  import opened SlotStore
  import Codec

  /** The scheduler as the manager sees it: its entries, which point into the views, and the occurrences. */
  datatype Live = Live(entries: seq<EntryRef>, table: SchedulerRuntime)

  datatype Manager = Manager(configuration: IrrigationConfiguration, views: Views, live: Option<Live>)

  predicate Usable(m: Manager) {
    && Shape(m.views) && |m.configuration.schedules| <= MAX_SCHEDULES
    && (m.live.Some? ==> RefsInRange(m.live.value.entries))
  }

  /** Entries are compared through the id buffers as they are now. */
  function ConfigureLive(live: Live, v: Views, count: nat): (r: (Live, IrrigationResult))
    requires Shape(v) && count <= MAX_SCHEDULES && RefsInRange(live.entries)
    ensures RefsInRange(r.0.entries)
  {
    var given := v.schedules[..count];
    var wanted := ResolveAll(given, v.scheduleIds);
    if EntriesAcceptable(wanted) then
      (Live(given, Reconfigured(ResolveAll(live.entries, v.scheduleIds), live.table, wanted)), Ok)
    else (live, Rejected)
  }

  /** The views and the scheduler are put back to the old configuration. */
  function Rollback(m: Manager, views: Views, live: Live, changed: bool): (Manager, IrrigationResult)
    requires Usable(m) && Shape(views) && RefsInRange(live.entries)
  {
    var restored := Rebuild(views, m.configuration, changed);
    var (back, result) := ConfigureLive(live, restored, |m.configuration.schedules|);
    (m.(views := restored, live := Some(back)), result)
  }

  /** `stored` says whether saving the candidate succeeds, or is not required. */
  function Replace(m: Manager, candidate: IrrigationConfiguration, boardZones: seq<Zone>, stored: bool): (Manager, IrrigationResult)
    requires Usable(m)
  {
    if !Valid(candidate, boardZones) then (m, Rejected)
    else
      var changed := m.configuration.programs != candidate.programs;
      match m.live
      case None =>
        if !stored then (m, InternalError)
        else (m.(configuration := candidate, views := Rebuild(m.views, candidate, changed)), Ok)
      case Some(live) => ReplaceBound(m, live, candidate, changed, stored)
  }

  /** With a scheduler bound: it takes over the new entries before the candidate is saved. */
  function ReplaceBound(m: Manager, live: Live, candidate: IrrigationConfiguration, changed: bool, stored: bool): (Manager, IrrigationResult)
    requires Usable(m) && m.live == Some(live) && |candidate.schedules| <= MAX_SCHEDULES
  {
    var views := Rebuild(m.views, candidate, changed);
    var (configured, result) := ConfigureLive(live, views, |candidate.schedules|);
    if result == Ok && stored then (Manager(candidate, views, Some(configured)), Ok)
    else
      var failure := if result == Ok then InternalError else result;
      var (back, restored) := Rollback(m, views, configured, changed);
      (back, if restored == Ok then failure else InternalError)
  }

  // ----- Saving -----

  /** Where a mutation is saved: whether it has to be, and the slots of the repository, if one is bound. */
  datatype Backing = Backing(required: bool, slots: Option<Slots>)

  /** Saves a candidate, or does without a repository where none is required. */
  function Persist(b: Backing, candidate: IrrigationConfiguration, boardZones: seq<Zone>, o: SaveOutcome): (Backing, bool) {
    match b.slots
    case None => (b, !b.required)
    case Some(slots) =>
      var (after, result) := Save(slots, candidate, boardZones, o);
      (b.(slots := Some(after)), result == Codec.RepositoryOk)
  }

  /** Whether a replacement gets as far as saving: the candidate is valid, and the scheduler, if bound, took over its entries. */
  predicate Reaches(m: Manager, candidate: IrrigationConfiguration, boardZones: seq<Zone>)
    requires Usable(m)
  {
    && Valid(candidate, boardZones)
    && (m.live.Some? ==>
        ConfigureLive(m.live.value, Rebuild(m.views, candidate, m.configuration.programs != candidate.programs), |candidate.schedules|).1 == Ok)
  }

  /** A replacement together with its save. */
  function ReplaceSaved(m: Manager, b: Backing, candidate: IrrigationConfiguration, boardZones: seq<Zone>, o: SaveOutcome):
      (Manager, Backing, IrrigationResult)
    requires Usable(m)
  {
    var (saved, stored) := if Reaches(m, candidate, boardZones) then Persist(b, candidate, boardZones, o) else (b, false);
    var (after, result) := Replace(m, candidate, boardZones, stored);
    (after, saved, result)
  }

  // ----- Boot -----

  datatype BootResult = BootLoaded | BootDefaultsPersisted | BootDefaultsCorrupt | BootDefaultsIncompatible | BootStorageError

  /** Two reads, and a save of the defaults where nothing was stored. */
  datatype BootOutcome = BootOutcome(readAFails: bool, readBFails: bool, save: SaveOutcome)

  function BootSees(slots: Slots, boardZones: seq<Zone>, o: BootOutcome): (loaded: Loaded)
    ensures loaded.result == Codec.RepositoryOk ==> Valid(loaded.configuration, boardZones)
  {
    LoadedIsValid(Seen(slots.0, o.readAFails), Seen(slots.1, o.readBFails), boardZones);
    LoadSlots((Seen(slots.0, o.readAFails), Seen(slots.1, o.readBFails)), boardZones)
  }

  /** What was stored takes the place of the defaults; where nothing was, the defaults are stored. */
  function LoadOrPersist(m: Manager, slots: Slots, boardZones: seq<Zone>, o: BootOutcome): (Manager, Slots, BootResult)
    requires Usable(m)
  {
    var loaded := BootSees(slots, boardZones, o);
    match loaded.result
    case RepositoryOk =>
      (m.(configuration := loaded.configuration, views := Rebuild(m.views, loaded.configuration, true)), slots, BootLoaded)
    case SlotsEmpty =>
      var (after, result) := Save(slots, m.configuration, boardZones, o.save);
      (m, after, if result == Codec.RepositoryOk then BootDefaultsPersisted else BootStorageError)
    case Incompatible => (m, slots, BootDefaultsIncompatible)
    case StorageError => (m, slots, BootStorageError)
    case _ => (m, slots, BootDefaultsCorrupt)
  }

  /** The scheduler takes over the entries of the views; if it refuses them the start-up ends there. */
  function JoinScheduler(m: Manager): (Manager, bool)
    requires Usable(m)
  {
    var (live, result) := ConfigureLive(Live([], Initial().scheduler), m.views, |m.configuration.schedules|);
    (if result == Ok then m.(live := Some(live)) else m, result == Ok)
  }

  // ----- The state between calls -----

  /** The configuration is valid, the views agree with it, and the scheduler has the entries of the views. */
  predicate InForce(m: Manager, boardZones: seq<Zone>) {
    && Usable(m) && Valid(m.configuration, boardZones) && Refines(m.views, m.configuration)
    && (m.live.Some? ==>
        && m.live.value.entries == m.views.schedules[..|m.configuration.schedules|]
        && m.live.value.table.count == |m.configuration.schedules|
        && forall i | 0 <= i < m.live.value.table.count :: TableRow(m.live.value.table, i))
  }

  /** An entry that was not handled yet has the sentinel. */
  predicate TableRow(table: SchedulerRuntime, i: nat)
    requires i < MAX_SCHEDULES
  {
    OrNever(table.occurrences[i]) == table.occurrences[i]
  }

  /** The ids of both configurations fit into the tables together. */
  predicate FitTogether(a: IrrigationConfiguration, b: IrrigationConfiguration) {
    && |IdsOf(ProgramIds(a.programs)) + IdsOf(ProgramIds(b.programs))| <= MAX_PROGRAMS
    && |IdsOf(ScheduleIds(a.schedules)) + IdsOf(ScheduleIds(b.schedules))| <= MAX_SCHEDULES
  }

  /** The entries of a configuration, resolved. */
  function EntriesOf(m: Manager): (entries: seq<Entry>)
    requires Usable(m)
  {
    ResolveAll(m.views.schedules[..|m.configuration.schedules|], m.views.scheduleIds)
  }

  // ----- Rebuilding between two configurations -----

  /** Live entries read the same ids, and programs that stay configured keep their slots. */
  predicate SlotsKept(v: Views, w: Views, programs: seq<ProgramConfiguration>)
    requires Shape(v) && Shape(w)
  {
    && (forall i | 0 <= i < MAX_SCHEDULES && v.scheduleUsed[i] :: w.scheduleIds[i] == v.scheduleIds[i])
    && KeepsSlots(v.programUsed, v.programIds, w.programUsed, w.programIds, ProgramIds(programs))
  }

  /** Rebuilding from one configuration to another succeeds exactly when their ids fit, and then keeps slots. */
  lemma RebuildBetween(v: Views, a: IrrigationConfiguration, b: IrrigationConfiguration, boardZones: seq<Zone>)
    requires Valid(a, boardZones) && Valid(b, boardZones) && Refines(v, a)
    ensures |b.schedules| <= MAX_SCHEDULES
    ensures var w := Rebuild(v, b, a.programs != b.programs);
            (Refines(w, b) <==> FitTogether(a, b)) && (Refines(w, b) ==> SlotsKept(v, w, b.programs))
  {
    hide Valid, Room, Coherent, RebuildSchedules, RebuildPrograms, SchedulesRefine, UsedIds, IdsOf, SlotOf;
    ValidIds(b, boardZones);
    RefinedHolds(v, a);
    HeldIds(v.programUsed, v.programIds, ProgramIds(a.programs));
    HeldIds(v.scheduleUsed, v.scheduleIds, ScheduleIds(a.schedules));
    RoomIs(v.programUsed, v.programIds, ProgramIds(b.programs));
    RoomIs(v.scheduleUsed, v.scheduleIds, ScheduleIds(b.schedules));
    if a.programs != b.programs {
      RebuildRefines(v, b, boardZones);
    } else {
      assert ProgramsRefine(v, b);
      HeldFits(v.programUsed, v.programIds, ProgramIds(a.programs));
      RebuildSchedulesRefines(v, b, boardZones);
    }
    RebuildKeepsLiveIds(v, b, boardZones, a.programs != b.programs);
  }

  lemma RefinedHolds(v: Views, c: IrrigationConfiguration)
    requires Refines(v, c)
    ensures HoldsExactly(v.programUsed, v.programIds, ProgramIds(c.programs))
    ensures HoldsExactly(v.scheduleUsed, v.scheduleIds, ScheduleIds(c.schedules))
  {
  }

  lemma RoomIs(used: seq<bool>, ids: seq<Text>, wanted: seq<Text>)
    requires |used| == |ids|
    ensures Room(used, ids, wanted) <==> |UsedIds(used, ids) + IdsOf(wanted)| <= |used|
  {
  }

  // ----- Entries of refined views -----

  lemma EntryIs(v: Views, c: IrrigationConfiguration, k: nat)
    requires Refines(v, c) && k < |c.schedules|
    ensures var s := c.schedules[k];
            && SlotOf(v.programUsed, v.programIds, s.programId).Some?
            && v.schedules[k].id < MAX_SCHEDULES && v.scheduleUsed[v.schedules[k].id]
            && Resolve(v.schedules[k], v.scheduleIds) ==
               Entry(s.scheduleId, s.enabled, s.weekdayMask, s.hour, s.minute, SlotOf(v.programUsed, v.programIds, s.programId).value)
  {
    assert ScheduleIds(c.schedules)[k] == c.schedules[k].scheduleId;
  }

  lemma RefinedAcceptable(v: Views, c: IrrigationConfiguration, boardZones: seq<Zone>)
    requires Refines(v, c) && Valid(c, boardZones)
    ensures EntriesAcceptable(ResolveAll(v.schedules[..|c.schedules|], v.scheduleIds))
  {
    hide Refines, Resolve, SlotOf;
    RefinedShape(v, c);
    RefsPrefix(v.schedules, |c.schedules|);
    var entries := ResolveAll(v.schedules[..|c.schedules|], v.scheduleIds);
    forall k | 0 <= k < |entries| ensures EntryValid(entries[k]) && entries[k].id == c.schedules[k].scheduleId {
      EntryIs(v, c, k);
      assert ValidSchedule(c.schedules[k], c.programs);
    }
  }

  /** Live entries read through rebuilt views are what they were. */
  lemma LiveEntriesRead(v: Views, w: Views, c: IrrigationConfiguration)
    requires Refines(v, c) && Shape(w)
    requires forall i | 0 <= i < MAX_SCHEDULES && v.scheduleUsed[i] :: w.scheduleIds[i] == v.scheduleIds[i]
    ensures ResolveAll(v.schedules[..|c.schedules|], w.scheduleIds) == ResolveAll(v.schedules[..|c.schedules|], v.scheduleIds)
  {
    var refs := v.schedules[..|c.schedules|];
    forall k | 0 <= k < |refs| ensures Resolve(refs[k], w.scheduleIds) == Resolve(refs[k], v.scheduleIds) {
      EntryIs(v, c, k);
    }
  }

  /** An entry that both configurations have alike, with its program, is the same entry in both views. */
  lemma SameEntry(v: Views, a: IrrigationConfiguration, w: Views, b: IrrigationConfiguration, j: nat, k: nat)
    requires Refines(v, a) && Refines(w, b) && SlotsKept(v, w, b.programs) && j < |a.schedules| && k < |b.schedules|
    requires a.schedules[j] == b.schedules[k] && b.schedules[k].programId in ProgramIds(b.programs)
    ensures Resolve(v.schedules[j], v.scheduleIds) == Resolve(w.schedules[k], w.scheduleIds)
  {
    EntryIs(v, a, j);
    EntryIs(w, b, k);
  }

  // ----- Configuring the scheduler from refined views -----

  /** The scheduler takes over the entries of the views; entries that stay keep their occurrences. */
  lemma ConfigureRefined(v: Views, a: IrrigationConfiguration, w: Views, b: IrrigationConfiguration, live: Live, boardZones: seq<Zone>)
    requires Valid(b, boardZones) && Refines(v, a) && Refines(w, b) && SlotsKept(v, w, b.programs)
    requires live.entries == v.schedules[..|a.schedules|] && live.table.count == |a.schedules|
    requires DistinctIds(ResolveAll(live.entries, v.scheduleIds))
    ensures RefsInRange(live.entries)
    ensures var (configured, result) := ConfigureLive(live, w, |b.schedules|);
            && result == Ok && configured.entries == w.schedules[..|b.schedules|] && configured.table.count == |b.schedules|
            && (forall i | 0 <= i < |b.schedules| :: TableRow(configured.table, i))
            && (forall j, k | 0 <= j < |a.schedules| && 0 <= k < |b.schedules| && a.schedules[j] == b.schedules[k] ::
                  configured.table.occurrences[k] == OrNever(live.table.occurrences[j]))
  {
    hide Refines, SlotsKept, Valid, Resolve, EntriesAcceptable, Preserved;
    RefinedShape(v, a);
    RefinedShape(w, b);
    RefsPrefix(v.schedules, |a.schedules|);
    RefsPrefix(w.schedules, |b.schedules|);
    var before := ResolveAll(live.entries, v.scheduleIds);
    var wanted := ResolveAll(w.schedules[..|b.schedules|], w.scheduleIds);
    RefinedAcceptable(w, b, boardZones);
    KeptIdsRead(v, w, b.programs);
    LiveEntriesRead(v, w, a);
    var table := Reconfigured(before, live.table, wanted);
    forall i | 0 <= i < |b.schedules| ensures TableRow(table, i) { }
    forall j, k | 0 <= j < |a.schedules| && 0 <= k < |b.schedules| && a.schedules[j] == b.schedules[k]
      ensures table.occurrences[k] == OrNever(live.table.occurrences[j])
    {
      ProgramConfigured(b, boardZones, k);
      SameEntry(v, a, w, b, j, k);
      ConfigureKeepsOccurrences(before, live.table, wanted, j, k);
    }
  }

  lemma RefinedShape(v: Views, c: IrrigationConfiguration)
    requires Refines(v, c)
    ensures Shape(v) && |c.schedules| <= MAX_SCHEDULES
  {
  }

  lemma RefsPrefix(refs: seq<EntryRef>, n: nat)
    requires RefsInRange(refs) && n <= |refs|
    ensures RefsInRange(refs[..n])
  {
  }

  lemma KeptIdsRead(v: Views, w: Views, programs: seq<ProgramConfiguration>)
    requires Shape(v) && Shape(w) && SlotsKept(v, w, programs)
    ensures forall i | 0 <= i < MAX_SCHEDULES && v.scheduleUsed[i] :: w.scheduleIds[i] == v.scheduleIds[i]
  {
  }

  lemma ProgramConfigured(c: IrrigationConfiguration, boardZones: seq<Zone>, k: nat)
    requires Valid(c, boardZones) && k < |c.schedules|
    ensures c.schedules[k].programId in ProgramIds(c.programs)
  {
    assert ValidSchedule(c.schedules[k], c.programs);
    var i :| 0 <= i < |c.programs| && c.programs[i].programId == c.schedules[k].programId;
    assert ProgramIds(c.programs)[i] == c.schedules[k].programId;
  }

  // ----- All or nothing -----

  /** What a replacement leaves of the occurrences: entries both configurations have alike keep theirs. */
  predicate OccurrencesKept(a: IrrigationConfiguration, before: Option<Live>, b: IrrigationConfiguration, after: Option<Live>) {
    && |a.schedules| <= MAX_SCHEDULES && |b.schedules| <= MAX_SCHEDULES && (before.Some? <==> after.Some?)
    && (before.Some? ==>
        forall j, k | 0 <= j < |a.schedules| && 0 <= k < |b.schedules| && a.schedules[j] == b.schedules[k] ::
          after.value.table.occurrences[k] == before.value.table.occurrences[j])
  }

  lemma DistinctLive(v: Views, c: IrrigationConfiguration, boardZones: seq<Zone>)
    requires Refines(v, c) && Valid(c, boardZones)
    ensures |c.schedules| <= MAX_SCHEDULES && Shape(v) && RefsInRange(v.schedules[..|c.schedules|])
    ensures DistinctIds(ResolveAll(v.schedules[..|c.schedules|], v.scheduleIds))
  {
    hide Refines, Valid;
    RefinedShape(v, c);
    RefsPrefix(v.schedules, |c.schedules|);
    RefinedAcceptable(v, c, boardZones);
  }

  /** The forward half: with room, the scheduler always accepts a valid candidate. */
  lemma Forward(m: Manager, candidate: IrrigationConfiguration, boardZones: seq<Zone>)
    requires InForce(m, boardZones) && m.live.Some? && Valid(candidate, boardZones) && FitTogether(m.configuration, candidate)
    ensures var views := Rebuild(m.views, candidate, m.configuration.programs != candidate.programs);
            var (configured, result) := ConfigureLive(m.live.value, views, |candidate.schedules|);
            && result == Ok && InForce(Manager(candidate, views, Some(configured)), boardZones)
            && SlotsKept(m.views, views, candidate.programs)
            && OccurrencesKept(m.configuration, m.live, candidate, Some(configured))
  {
    hide Refines, Valid, FitTogether, SlotsKept, ConfigureLive, Rebuild, OrNever;
    RefinedShape(m.views, m.configuration);
    RebuildBetween(m.views, m.configuration, candidate, boardZones);
    var views := Rebuild(m.views, candidate, m.configuration.programs != candidate.programs);
    DistinctLive(m.views, m.configuration, boardZones);
    ConfigureRefined(m.views, m.configuration, views, candidate, m.live.value, boardZones);
    forall j | 0 <= j < |m.configuration.schedules|
      ensures OrNever(m.live.value.table.occurrences[j]) == m.live.value.table.occurrences[j]
    {
      assert TableRow(m.live.value.table, j);
    }
  }

  lemma FitSymmetric(a: IrrigationConfiguration, b: IrrigationConfiguration)
    requires FitTogether(a, b)
    ensures FitTogether(b, a)
  {
    var p, q := IdsOf(ProgramIds(a.programs)), IdsOf(ProgramIds(b.programs));
    assert p + q == q + p;
    var s, t := IdsOf(ScheduleIds(a.schedules)), IdsOf(ScheduleIds(b.schedules));
    assert s + t == t + s;
  }

  /** A rollback always succeeds, even from views that stopped half way. */
  lemma RollbackSucceeds(m: Manager, candidate: IrrigationConfiguration, live: Live, boardZones: seq<Zone>)
    requires InForce(m, boardZones) && Valid(candidate, boardZones) && RefsInRange(live.entries)
    ensures |candidate.schedules| <= MAX_SCHEDULES
    ensures var changed := m.configuration.programs != candidate.programs;
            var (after, result) := Rollback(m, Rebuild(m.views, candidate, changed), live, changed);
            result == Ok && InForce(after, boardZones) && after.configuration == m.configuration && after.live.Some?
  {
    hide Refines, Valid, Rebuild, Resolve, Preserved;
    RebuildGoesBack(m.views, m.configuration, candidate, boardZones);
    var changed := m.configuration.programs != candidate.programs;
    var restored := Rebuild(Rebuild(m.views, candidate, changed), m.configuration, changed);
    RefinedShape(restored, m.configuration);
    RefinedAcceptable(restored, m.configuration, boardZones);
  }

  /**
   A replacement never leaves less than one configuration in force, with one exact exception. It succeeds only with a candidate
   that is valid and stored, and otherwise the old configuration is in force again, whatever the rebuild had done to the views.
   After a success the candidate is in force if and only if its ids fit beside those of the old configuration. Where they do fit,
   every valid and stored candidate succeeds, and the entries that the candidate did not touch keep their occurrences either way.
   */
  lemma ReplaceIsAllOrNothing(m: Manager, candidate: IrrigationConfiguration, boardZones: seq<Zone>, stored: bool)
    requires InForce(m, boardZones)
    ensures var (after, result) := Replace(m, candidate, boardZones, stored);
            && after.configuration == (if result == Ok then candidate else m.configuration)
            && (result == Ok ==> Valid(candidate, boardZones) && stored)
            && (InForce(after, boardZones) <==> result != Ok || FitTogether(m.configuration, candidate))
            && (after.live.Some? <==> m.live.Some?)
    ensures var (after, result) := Replace(m, candidate, boardZones, stored);
            FitTogether(m.configuration, candidate) ==>
            && (result == Ok <==> Valid(candidate, boardZones) && stored)
            && (result == Ok ==> OccurrencesKept(m.configuration, m.live, candidate, after.live))
            && (result != Ok && m.live.Some? ==>
                forall j | 0 <= j < |m.configuration.schedules| && m.configuration.schedules[j] in candidate.schedules ::
                  after.live.value.table.occurrences[j] == m.live.value.table.occurrences[j])
  {
    hide Refines, Valid, FitTogether, SlotsKept, ConfigureLive, Rebuild, TableRow, Rollback;
    if Valid(candidate, boardZones) {
      RefinedShape(m.views, m.configuration);
      RebuildBetween(m.views, m.configuration, candidate, boardZones);
      if m.live.None? {
        if stored && FitTogether(m.configuration, candidate) {
          RefinedShape(Rebuild(m.views, candidate, m.configuration.programs != candidate.programs), candidate);
        }
      } else {
        BoundIsAllOrNothing(m, candidate, boardZones, stored);
      }
    }
  }

  /** The same with a scheduler bound. */
  lemma BoundIsAllOrNothing(m: Manager, candidate: IrrigationConfiguration, boardZones: seq<Zone>, stored: bool)
    requires InForce(m, boardZones) && m.live.Some? && Valid(candidate, boardZones)
    ensures |candidate.schedules| <= MAX_SCHEDULES
    ensures var changed := m.configuration.programs != candidate.programs;
            var (after, result) := ReplaceBound(m, m.live.value, candidate, changed, stored); var fits := FitTogether(m.configuration, candidate);
            && after.configuration == (if result == Ok then candidate else m.configuration)
            && (result == Ok ==> stored) && after.live.Some?
            && (InForce(after, boardZones) <==> result != Ok || fits)
            && (fits ==> (result == Ok <==> stored))
            && (fits && result == Ok ==> OccurrencesKept(m.configuration, m.live, candidate, after.live))
            && (fits && result != Ok ==>
                forall j | 0 <= j < |m.configuration.schedules| && m.configuration.schedules[j] in candidate.schedules ::
                  after.live.value.table.occurrences[j] == m.live.value.table.occurrences[j])
  {
    hide Refines, Valid, FitTogether, SlotsKept, ConfigureLive, Rebuild, TableRow, Rollback;
    var changed := m.configuration.programs != candidate.programs;
    RefinedShape(m.views, m.configuration);
    RebuildBetween(m.views, m.configuration, candidate, boardZones);
    var views := Rebuild(m.views, candidate, changed);
    var (configured, result) := ConfigureLive(m.live.value, views, |candidate.schedules|);
    RollbackSucceeds(m, candidate, configured, boardZones);
    if FitTogether(m.configuration, candidate) {
      Forward(m, candidate, boardZones);
      if !stored { RollbackKeepsOccurrences(m, candidate, boardZones); }
    }
  }

  /** Where the candidate fits, going forth and back keeps the occurrences of the entries both configurations have. */
  lemma RollbackKeepsOccurrences(m: Manager, candidate: IrrigationConfiguration, boardZones: seq<Zone>)
    requires InForce(m, boardZones) && m.live.Some? && Valid(candidate, boardZones) && FitTogether(m.configuration, candidate)
    ensures |candidate.schedules| <= MAX_SCHEDULES
    ensures var changed := m.configuration.programs != candidate.programs; var views := Rebuild(m.views, candidate, changed);
            var back := Rollback(m, views, ConfigureLive(m.live.value, views, |candidate.schedules|).0, changed).0;
            && back.live.Some?
            && forall j | 0 <= j < |m.configuration.schedules| && m.configuration.schedules[j] in candidate.schedules ::
                 back.live.value.table.occurrences[j] == m.live.value.table.occurrences[j]
  {
    hide Refines, Valid, FitTogether, SlotsKept, ConfigureLive, Rebuild, TableRow;
    var changed := m.configuration.programs != candidate.programs;
    RefinedShape(m.views, m.configuration);
    Forward(m, candidate, boardZones);
    var views := Rebuild(m.views, candidate, changed);
    var configured := ConfigureLive(m.live.value, views, |candidate.schedules|).0;
    FitSymmetric(m.configuration, candidate);
    Forward(Manager(candidate, views, Some(configured)), m.configuration, boardZones);
  }

  /** After a rollback the scheduler's entries are by value the old ones, if the candidate kept the programs they name. */
  lemma RollbackRestoresEntries(m: Manager, candidate: IrrigationConfiguration, boardZones: seq<Zone>)
    requires InForce(m, boardZones) && m.live.Some? && Valid(candidate, boardZones) && FitTogether(m.configuration, candidate)
    requires forall j | 0 <= j < |m.configuration.schedules| :: m.configuration.schedules[j].programId in ProgramIds(candidate.programs)
    ensures var (after, result) := Replace(m, candidate, boardZones, false);
            result == InternalError && Usable(after) && after.configuration == m.configuration && EntriesOf(after) == EntriesOf(m)
  {
    hide Refines, Valid, FitTogether, SlotsKept, ConfigureLive, Rebuild, TableRow, Resolve;
    RefinedShape(m.views, m.configuration);
    var changed := m.configuration.programs != candidate.programs;
    Forward(m, candidate, boardZones);
    var views := Rebuild(m.views, candidate, changed);
    var configured := ConfigureLive(m.live.value, views, |candidate.schedules|).0;
    FitSymmetric(m.configuration, candidate);
    Forward(Manager(candidate, views, Some(configured)), m.configuration, boardZones);
    var restored := Rebuild(views, m.configuration, changed);
    forall j | 0 <= j < |m.configuration.schedules|
      ensures Resolve(restored.schedules[j], restored.scheduleIds) == Resolve(m.views.schedules[j], m.views.scheduleIds)
    {
      ProgramConfigured(m.configuration, boardZones, j);
      EntryRestored(m.views, m.configuration, views, candidate, restored, j);
    }
    ResolvePrefixes(restored, m.views, |m.configuration.schedules|);
  }

  lemma ResolvePrefixes(v: Views, w: Views, n: nat)
    requires Shape(v) && Shape(w) && n <= MAX_SCHEDULES
    requires forall j | 0 <= j < n :: Resolve(v.schedules[j], v.scheduleIds) == Resolve(w.schedules[j], w.scheduleIds)
    ensures ResolveAll(v.schedules[..n], v.scheduleIds) == ResolveAll(w.schedules[..n], w.scheduleIds)
  {
    hide Resolve;
    var p, q := ResolveAll(v.schedules[..n], v.scheduleIds), ResolveAll(w.schedules[..n], w.scheduleIds);
    assert forall j | 0 <= j < n :: p[j] == q[j];
  }

  /** There and back: the program keeps its slot both ways, so the entry is what it was. */
  lemma EntryRestored(v: Views, a: IrrigationConfiguration, w: Views, b: IrrigationConfiguration, x: Views, j: nat)
    requires Refines(v, a) && Refines(w, b) && Refines(x, a) && SlotsKept(v, w, b.programs) && SlotsKept(w, x, a.programs)
    requires j < |a.schedules| && a.schedules[j].programId in ProgramIds(b.programs) && a.schedules[j].programId in ProgramIds(a.programs)
    ensures Resolve(x.schedules[j], x.scheduleIds) == Resolve(v.schedules[j], v.scheduleIds)
  {
    EntryIs(v, a, j);
    EntryIs(x, a, j);
  }
}
