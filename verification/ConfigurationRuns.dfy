/** Whole lives of the configuration: mutations and reboots, over storage that may fail, lose and damage. */
module ConfigurationRuns {
  import opened Bytes
  import opened Common
  import opened Configuration
  import opened RuntimeStates
  import opened SlotTables
  import opened RuntimeViews
  import opened SlotStore
  import opened ManagerOperations
  import opened ManagerRuns
  import opened Codec
  import Schedules

  /** The manager, what storage holds, whether a repository is bound, and whether the start-up got to the end. */
  datatype World = World(m: Manager, slots: Slots, bound: bool, running: bool)

  datatype Op =
    | Change(mutation: Mutation, outcome: SaveOutcome)
    | Reboot(opens: bool, boot: BootOutcome)

  /** The board and the configuration compiled in for it. */
  datatype Device = Device(defaults: IrrigationConfiguration, boardZones: seq<Zone>)

  predicate DeviceValid(d: Device) {
    Valid(d.defaults, d.boardZones)
  }

  function BackingOf(w: World): Backing {
    Backing(true, if w.bound then Some(w.slots) else None)
  }

  function BlankManager(d: Device): (m: Manager)
    requires DeviceValid(d)
    ensures Usable(m)
  {
    Manager(d.defaults, Rebuild(NoViews(), d.defaults, true), None)
  }

  /**
   The defaults, then what storage holds. Without a storage partition, or when nothing can be loaded or saved, no repository is bound
   and every mutation is refused.
   */
  function Loading(d: Device, slots: Slots, opens: bool, boot: BootOutcome): (r: (Manager, Slots, bool))
    requires DeviceValid(d)
    ensures Usable(r.0) && r.0.live.None?
  {
    if !opens then (BlankManager(d), slots, false)
    else
      var (m, after, result) := LoadOrPersist(BlankManager(d), slots, d.boardZones, boot);
      (m, after, result != BootStorageError)
  }

  function StartUp(d: Device, slots: Slots, opens: bool, boot: BootOutcome): World
    requires DeviceValid(d)
  {
    var (loaded, after, bound) := Loading(d, slots, opens, boot);
    var (m, running) := JoinScheduler(loaded);
    World(m, after, bound, running)
  }

  predicate Sane(d: Device, w: World) {
    DeviceValid(d) && Usable(w.m) && Valid(w.m.configuration, d.boardZones)
  }

  function Apply(d: Device, w: World, op: Op): (World, IrrigationResult)
    requires Sane(d, w)
  {
    match op
    case Change(mutation, outcome) =>
      if !w.running then (w, Rejected)
      else
        var (m, backing, result) := Mutate(w.m, BackingOf(w), mutation, d.boardZones, outcome);
        (World(m, if backing.slots.Some? then backing.slots.value else w.slots, w.bound, true), result)
    case Reboot(opens, boot) => (StartUp(d, w.slots, opens, boot), Ok)
  }

  lemma ApplyIsSane(d: Device, w: World, op: Op)
    requires Sane(d, w)
    ensures Sane(d, Apply(d, w, op).0)
  {
    hide Valid, Mutate, LoadOrPersist;
    match op {
      case Change(mutation, outcome) => MutationAnswers(w.m, BackingOf(w), mutation, d.boardZones, outcome);
      case Reboot(opens, boot) => StartUpMeans(d, w.slots, opens, boot);
    }
  }

  /** What a start-up sees, and the configuration, slots and repository it ends with. */
  lemma StartUpMeans(d: Device, slots: Slots, opens: bool, boot: BootOutcome)
    requires DeviceValid(d)
    ensures var w := StartUp(d, slots, opens, boot); var seen := BootSees(slots, d.boardZones, boot);
            && Usable(w.m) && (w.m.live.Some? <==> w.running)
            && w.m.configuration == (if opens && seen.result == RepositoryOk then seen.configuration else d.defaults)
            && (w.bound ==> opens && seen.result != StorageError)
            && w.slots == (if opens && seen.result == SlotsEmpty then Save(slots, d.defaults, d.boardZones, boot.save).0 else slots)
            && Valid(w.m.configuration, d.boardZones)
  {
    hide Valid, Rebuild, BootSees, Save, Schedules.EntriesAcceptable, Schedules.Reconfigured;
    if BootSees(slots, d.boardZones, boot).result == RepositoryOk {
      ValidIds(BootSees(slots, d.boardZones, boot).configuration, d.boardZones);
    }
  }

  function LifeOf(d: Device, w: World, ops: seq<Op>): (after: World)
    requires Sane(d, w)
    ensures Sane(d, after)
  {
    if ops == [] then w
    else
      var before := LifeOf(d, w, ops[..|ops| - 1]);
      ApplyIsSane(d, before, ops[|ops| - 1]);
      Apply(d, before, ops[|ops| - 1]).0
  }

  /** Whatever storage does, in every life every configuration is valid, and its zones are exactly the board's. */
  lemma ReachableConfigurationsAreValid(d: Device, slots: Slots, opens: bool, boot: BootOutcome, ops: seq<Op>)
    requires DeviceValid(d)
    ensures Sane(d, StartUp(d, slots, opens, boot))
    ensures var c := LifeOf(d, StartUp(d, slots, opens, boot), ops).m.configuration;
            Valid(c, d.boardZones) && Configuration.ConfiguredIds(c.zones) == BoardIds(d.boardZones)
  {
    hide Valid, StartUp, BootSees, Save, LifeOf;
    StartUpMeans(d, slots, opens, boot);
    ValidatedZonesAreTheBoard(LifeOf(d, StartUp(d, slots, opens, boot), ops).m.configuration, d.boardZones);
  }

  // ----- Agreement of the views -----

  /** After a start-up that ends, the views agree with the configuration exactly when its ids fit beside those of the defaults. */
  lemma StartUpInForce(d: Device, slots: Slots, opens: bool, boot: BootOutcome)
    requires DeviceValid(d)
    ensures var w := StartUp(d, slots, opens, boot);
            InForce(w.m, d.boardZones) <==> FitTogether(d.defaults, w.m.configuration)
    ensures var w := StartUp(d, slots, opens, boot); InForce(w.m, d.boardZones) ==> w.running
  {
    hide Valid, Rebuild, BootSees, Save, FitTogether, Refines, ConfigureLive;
    StartUpMeans(d, slots, opens, boot);
    DefaultsAreInForce(NoViews(), d.defaults, d.boardZones);
    var w := StartUp(d, slots, opens, boot);
    var loaded := w.m.(live := None);
    if opens && BootSees(slots, d.boardZones, boot).result == RepositoryOk {
      BootLoadRefines(BlankManager(d), w.m.configuration, d.boardZones);
    } else {
      RefinedFits(BlankManager(d).views, d.defaults);
    }
    if FitTogether(d.defaults, w.m.configuration) {
      SchedulerJoins(loaded, Initial().scheduler, d.boardZones);
    }
  }

  lemma RefinedFits(v: Views, c: IrrigationConfiguration)
    requires Refines(v, c)
    ensures FitTogether(c, c)
  {
    hide Room;
    RefinedHolds(v, c);
    HeldFits(v.programUsed, v.programIds, ProgramIds(c.programs));
    HeldFits(v.scheduleUsed, v.scheduleIds, ScheduleIds(c.schedules));
    HeldIds(v.programUsed, v.programIds, ProgramIds(c.programs));
    HeldIds(v.scheduleUsed, v.scheduleIds, ScheduleIds(c.schedules));
    RoomIs(v.programUsed, v.programIds, ProgramIds(c.programs));
    RoomIs(v.scheduleUsed, v.scheduleIds, ScheduleIds(c.schedules));
  }

  /** Every reboot of the run ends with a configuration that fits beside the defaults. */
  predicate RebootsFit(d: Device, w: World, ops: seq<Op>)
    requires Sane(d, w)
  {
    ops == [] ||
    (RebootsFit(d, w, ops[..|ops| - 1]) && (ops[|ops| - 1].Reboot? ==> FitTogether(d.defaults, LifeOf(d, w, ops).m.configuration)))
  }

  /** As long as what is loaded fits, the views, the scheduler and the configuration agree at every moment. */
  lemma {:induction false} RunInForce(d: Device, w: World, ops: seq<Op>)
    requires Sane(d, w) && InForce(w.m, d.boardZones) && RebootsFit(d, w, ops)
    ensures InForce(LifeOf(d, w, ops).m, d.boardZones)
  {
    hide Valid, InForce, StartUp, Mutate, FitTogether;
    if ops != [] {
      var before := LifeOf(d, w, ops[..|ops| - 1]);
      RunInForce(d, w, ops[..|ops| - 1]);
      match ops[|ops| - 1] {
        case Change(mutation, outcome) => MutationIsAllOrNothing(before.m, BackingOf(before), mutation, d.boardZones, outcome);
        case Reboot(opens, boot) => StartUpInForce(d, before.slots, opens, boot);
      }
    }
  }

  // ----- Durability -----

  /** A boot whose reads succeed sees what is stored. */
  lemma ClearBootSees(slots: Slots, boardZones: seq<Zone>, boot: BootOutcome)
    requires !boot.readAFails && !boot.readBFails
    ensures BootSees(slots, boardZones, boot) == LoadSlots(slots, boardZones)
  {
    hide LoadSlots;
  }

  /**
   A mutation that answered OK survives a reboot, exactly outside the stale trap: the controller comes up with the configuration
   that was in force. In the trap it comes up with the one before the mutation was saved, although the save was acknowledged.
   */
  lemma AcknowledgedSurvivesReboot(d: Device, w: World, mutation: Mutation, outcome: SaveOutcome, boot: BootOutcome)
    requires Sane(d, w) && Honest(outcome, d.boardZones) && !boot.readAFails && !boot.readBFails
    requires Apply(d, w, Change(mutation, outcome)).1 == Ok
    ensures var changed := Apply(d, w, Change(mutation, outcome)).0;
            && DeviceValid(d) && w.bound
            && var again := StartUp(d, changed.slots, true, boot);
               && again.bound
               && (!Trapped(w.slots, d.boardZones) ==> again.m.configuration == changed.m.configuration)
               && (Trapped(w.slots, d.boardZones) ==>
                   LoadSlots(w.slots, d.boardZones).result == RepositoryOk &&
                   again.m.configuration == LoadSlots(w.slots, d.boardZones).configuration)
  {
    hide Valid, Mutate, StartUp, Save, BootSees, Persist, LoadSlots;
    MutationAnswers(w.m, BackingOf(w), mutation, d.boardZones, outcome);
    var candidate := DraftOf(w.m.configuration, mutation).candidate;
    var changed := Apply(d, w, Change(mutation, outcome)).0;
    AcknowledgedIsBound(d, w, candidate, outcome);
    SaveThenLoad(w.slots, candidate, d.boardZones, outcome);
    ClearBootSees(changed.slots, d.boardZones, boot);
    StartUpMeans(d, changed.slots, true, boot);
    if Trapped(w.slots, d.boardZones) { TrappedLoads(w.slots, d.boardZones); }
    LoadedIsBound(d, changed.slots, boot);
  }

  lemma LoadedIsBound(d: Device, slots: Slots, boot: BootOutcome)
    requires DeviceValid(d) && BootSees(slots, d.boardZones, boot).result == RepositoryOk
    ensures StartUp(d, slots, true, boot).bound
  {
    hide Valid, BootSees, Rebuild;
  }

  lemma AcknowledgedIsBound(d: Device, w: World, candidate: IrrigationConfiguration, outcome: SaveOutcome)
    ensures Persist(BackingOf(w), candidate, d.boardZones, outcome).1 ==>
      w.bound && Save(w.slots, candidate, d.boardZones, outcome).1 == RepositoryOk
    ensures Persist(BackingOf(w), candidate, d.boardZones, outcome).0.slots ==
      if w.bound then Some(Save(w.slots, candidate, d.boardZones, outcome).0) else None
  {
    hide Save;
  }

  lemma TrappedLoads(slots: Slots, boardZones: seq<Zone>)
    requires Trapped(slots, boardZones)
    ensures LoadSlots(slots, boardZones).result == RepositoryOk
  {
    hide ReadSlot;
  }

  // ----- Generated ids -----

  datatype Kind = ProgramKind | ScheduleKind

  function Counter(c: IrrigationConfiguration, kind: Kind): u32 {
    if kind == ProgramKind then c.nextProgramId else c.nextScheduleId
  }

  function IdOf(kind: Kind, n: u32): Text {
    if kind == ProgramKind then ProgramId(n) else ScheduleId(n)
  }

  predicate Creates(op: Op, kind: Kind) {
    op.Change? && if kind == ProgramKind then op.mutation.CreateProgram? else op.mutation.CreateSchedule?
  }

  /** The numbers of the ids that acknowledged creations generated, in order, across all reboots. */
  function Created(d: Device, w: World, ops: seq<Op>, kind: Kind): seq<u32>
    requires Sane(d, w)
  {
    if ops == [] then []
    else
      var before, last := LifeOf(d, w, ops[..|ops| - 1]), ops[|ops| - 1];
      Created(d, w, ops[..|ops| - 1], kind) +
      if Creates(last, kind) && Apply(d, before, last).1 == Ok then [Counter(before.m.configuration, kind)] else []
  }

  /**
   What a step must not do: acknowledge a save in the stale trap, boot from something else than what is stored, make up a blob, or
   wrap a counter.
   */
  predicate Faithful(d: Device, w: World, op: Op)
    requires Sane(d, w)
  {
    match op
    case Change(mutation, outcome) =>
      && Honest(outcome, d.boardZones)
      && (Apply(d, w, op).1 == Ok ==> !Trapped(w.slots, d.boardZones))
      && (Creates(op, ProgramKind) ==> w.m.configuration.nextProgramId < U32_MAX)
      && (Creates(op, ScheduleKind) ==> w.m.configuration.nextScheduleId < U32_MAX)
    case Reboot(opens, boot) =>
      opens ==>
        var seen := BootSees(w.slots, d.boardZones, boot);
        seen == LoadSlots(w.slots, d.boardZones) || seen.result == StorageError
  }

  predicate FaithfulLife(d: Device, w: World, ops: seq<Op>)
    requires Sane(d, w)
  {
    ops == [] || (FaithfulLife(d, w, ops[..|ops| - 1]) && Faithful(d, LifeOf(d, w, ops[..|ops| - 1]), ops[|ops| - 1]))
  }

  predicate AllBelow(numbers: seq<u32>, bound: int) {
    forall i | 0 <= i < |numbers| :: numbers[i] < bound
  }

  predicate Increasing(numbers: seq<u32>) {
    forall i, j | 0 <= i < j < |numbers| :: numbers[i] < numbers[j]
  }

  /** The counters in memory, while mutations are possible, and those that the next boot loads are ahead of every acknowledged id. */
  predicate Ahead(d: Device, w: World, kind: Kind, numbers: seq<u32>) {
    && Increasing(numbers)
    && (w.bound && w.running ==> AllBelow(numbers, Counter(w.m.configuration, kind)))
    && (numbers != [] ==>
        && LoadSlots(w.slots, d.boardZones).result == RepositoryOk
        && AllBelow(numbers, Counter(LoadSlots(w.slots, d.boardZones).configuration, kind)))
  }

  /** What a mutation does to the configuration in memory and to the one the next boot loads. */
  lemma ChangeMeans(d: Device, w: World, op: Op)
    requires Sane(d, w) && op.Change? && w.running && w.bound && Faithful(d, w, op)
    ensures var (after, result) := Apply(d, w, op); var draft := DraftOf(w.m.configuration, op.mutation);
            var before, next := LoadSlots(w.slots, d.boardZones), LoadSlots(after.slots, d.boardZones);
            && after.bound && after.running && (result == Ok ==> draft.Draft?)
            && after.m.configuration == (if result == Ok then draft.candidate else w.m.configuration)
            && (result == Ok ==> next.result == RepositoryOk && next.configuration == draft.candidate)
            && (result != Ok ==>
                || next == before
                || (draft.Draft? && next.result == RepositoryOk && next.configuration == draft.candidate)
                || (before.result != RepositoryOk && next.result != RepositoryOk))
  {
    hide Valid, Mutate, Save, Persist, DraftOf, LoadSlots, Trapped;
    MutationAnswers(w.m, BackingOf(w), op.mutation, d.boardZones, op.outcome);
    var draft := DraftOf(w.m.configuration, op.mutation);
    if draft.Draft? {
      AcknowledgedIsBound(d, w, draft.candidate, op.outcome);
      SaveIsAtomic(w.slots, draft.candidate, d.boardZones, op.outcome);
      if Apply(d, w, op).1 == Ok { SaveThenLoad(w.slots, draft.candidate, d.boardZones, op.outcome); }
    }
  }

  /** A draft takes its counter one further exactly when it creates something. */
  lemma CounterOfDraft(d: Device, w: World, op: Op, kind: Kind)
    requires Sane(d, w) && op.Change? && Faithful(d, w, op) && DraftOf(w.m.configuration, op.mutation).Draft?
    ensures Counter(DraftOf(w.m.configuration, op.mutation).candidate, kind) ==
            Counter(w.m.configuration, kind) + if Creates(op, kind) then 1 else 0
  {
    hide Valid, Apply, DraftOf;
    CountersOfDraft(w.m.configuration, op.mutation);
  }

  lemma ChangeAhead(d: Device, w: World, op: Op, kind: Kind, numbers: seq<u32>)
    requires Sane(d, w) && op.Change? && w.running && w.bound && Faithful(d, w, op) && Ahead(d, w, kind, numbers)
    ensures var (after, result) := Apply(d, w, op);
            Ahead(d, after, kind, numbers + if Creates(op, kind) && result == Ok then [Counter(w.m.configuration, kind)] else [])
  {
    hide Sane, Apply, Faithful, Creates, Counter, DraftOf, LoadSlots;
    assert Usable(w.m) by { SaneIsUsable(d, w); }
    ChangeMeans(d, w, op);
    if DraftOf(w.m.configuration, op.mutation).Draft? { CounterOfDraft(d, w, op, kind); }
    var n := Counter(w.m.configuration, kind);
    if Creates(op, kind) && Apply(d, w, op).1 == Ok {
      assert AllBelow(numbers + [n], n + 1);
    } else {
      assert numbers + [] == numbers;
    }
  }

  lemma SaneIsUsable(d: Device, w: World)
    requires Sane(d, w)
    ensures Usable(w.m)
  {
  }

  /** Without a repository no mutation is acknowledged. */
  lemma UnboundRefuses(d: Device, w: World, op: Op)
    requires Sane(d, w) && op.Change? && !(w.running && w.bound)
    ensures var (after, result) := Apply(d, w, op); result != Ok && after.slots == w.slots && after.bound == w.bound && after.running == w.running
  {
    hide Valid, Mutate, Save, DraftOf;
    MutationAnswers(w.m, BackingOf(w), op.mutation, d.boardZones, op.outcome);
  }

  lemma RebootAhead(d: Device, w: World, op: Op, kind: Kind, numbers: seq<u32>)
    requires Sane(d, w) && op.Reboot? && Faithful(d, w, op) && Ahead(d, w, kind, numbers)
    ensures Ahead(d, Apply(d, w, op).0, kind, numbers)
  {
    hide Valid, StartUp, Save, BootSees, LoadSlots;
    StartUpMeans(d, w.slots, op.opens, op.boot);
  }

  lemma {:induction false} RunAhead(d: Device, w: World, ops: seq<Op>, kind: Kind)
    requires Sane(d, w) && FaithfulLife(d, w, ops)
    ensures Ahead(d, LifeOf(d, w, ops), kind, Created(d, w, ops, kind))
  {
    hide Sane, Apply, Faithful, Ahead, Creates, Counter;
    if ops == [] {
      NothingAhead(d, w, kind);
    } else {
      var before, last := LifeOf(d, w, ops[..|ops| - 1]), ops[|ops| - 1];
      RunAhead(d, w, ops[..|ops| - 1], kind);
      StepAhead(d, before, last, kind, Created(d, w, ops[..|ops| - 1], kind));
    }
  }

  lemma NothingAhead(d: Device, w: World, kind: Kind)
    ensures Ahead(d, w, kind, [])
  {
  }

  lemma StepAhead(d: Device, w: World, op: Op, kind: Kind, numbers: seq<u32>)
    requires Sane(d, w) && Faithful(d, w, op) && Ahead(d, w, kind, numbers)
    ensures var (after, result) := Apply(d, w, op);
            Ahead(d, after, kind, numbers + if Creates(op, kind) && result == Ok then [Counter(w.m.configuration, kind)] else [])
  {
    hide Valid, Mutate, StartUp, Faithful, LoadSlots;
    if op.Reboot? {
      RebootAhead(d, w, op, kind, numbers);
      assert numbers + [] == numbers;
    } else if w.running && w.bound {
      ChangeAhead(d, w, op, kind, numbers);
    } else {
      UnboundRefuses(d, w, op);
      assert numbers + [] == numbers;
    }
  }

  /**
   An id whose creation was acknowledged is never generated again, not after what carried it was deleted, nor after any number of
   reboots, lost, damaged and wrongly reported saves and failed reads, as long as every step is faithful.
   */
  lemma GeneratedIdsNeverRepeat(d: Device, w: World, ops: seq<Op>, kind: Kind)
    requires Sane(d, w) && FaithfulLife(d, w, ops)
    ensures var numbers := Created(d, w, ops, kind);
            forall i, j | 0 <= i < j < |numbers| :: IdOf(kind, numbers[i]) != IdOf(kind, numbers[j])
  {
    hide Sane, FaithfulLife, LifeOf, Created, ProgramId, ScheduleId, LoadSlots;
    RunAhead(d, w, ops, kind);
    var numbers := Created(d, w, ops, kind);
    forall i, j | 0 <= i < j < |numbers| ensures IdOf(kind, numbers[i]) != IdOf(kind, numbers[j]) {
      assert numbers[i] < numbers[j];
      IdsAreInjective(numbers[i], numbers[j]);
    }
  }

  // ----- Why every step has to be faithful -----

  const PERFECT: SaveOutcome := SaveOutcome(false, false, true, true, AsWritten, false)
  const CLEAR: BootOutcome := BootOutcome(false, false, PERFECT)

  /** A creation that stores everything it should. */
  lemma CreationWorks(d: Device, w: World, mutation: Mutation)
    requires Sane(d, w) && InForce(w.m, d.boardZones) && w.running && w.bound
    requires var draft := DraftOf(w.m.configuration, mutation);
             && draft.Draft? && Valid(draft.candidate, d.boardZones)
             && PlanSave(w.slots.0, w.slots.1, draft.candidate, d.boardZones).Write?
    ensures var (after, result) := Apply(d, w, Change(mutation, PERFECT)); var candidate := DraftOf(w.m.configuration, mutation).candidate;
            var plan := PlanSave(w.slots.0, w.slots.1, candidate, d.boardZones);
            && result == Ok && after.slots == After(w.slots.0, w.slots.1, plan, Content(plan.blob)) && after.bound && after.running
            && ReadSlot(Content(plan.blob), d.boardZones) == Slot(SlotValid, plan.generation, candidate)
  {
    hide Valid, InForce, DraftOf, Mutate, PlanSave, ReadSlot, SaveResult, OccurrencesKept;
    var candidate := DraftOf(w.m.configuration, mutation).candidate;
    MutationIsAllOrNothing(w.m, BackingOf(w), mutation, d.boardZones, PERFECT);
    PlannedSlotIsValid(w.slots.0, w.slots.1, candidate, d.boardZones);
  }

  /** What a start-up makes of storage depends on no more than what it loads. */
  lemma SameStartUp(d: Device, slots: Slots, boot: BootOutcome, others: Slots, again: BootOutcome)
    requires DeviceValid(d)
    requires BootSees(slots, d.boardZones, boot) == BootSees(others, d.boardZones, again)
    requires BootSees(slots, d.boardZones, boot).result == RepositoryOk
    ensures var a, b := StartUp(d, slots, true, boot), StartUp(d, others, true, again);
            && b.m == a.m && b.running == a.running && a.bound && b.bound && a.slots == slots && b.slots == others
  {
    hide Valid, BootSees, Rebuild, ConfigureLive;
  }

  /** Two acknowledged creations with a reboot in between that comes up with the first configuration again. */
  lemma CreatedTwice(d: Device, w: World, mutation: Mutation, boot: BootOutcome, kind: Kind)
    requires Sane(d, w) && Creates(Change(mutation, PERFECT), kind)
    requires var changed, result := Apply(d, w, Change(mutation, PERFECT)).0, Apply(d, w, Change(mutation, PERFECT)).1;
             var again := StartUp(d, changed.slots, true, boot);
             && result == Ok && again.m.configuration == w.m.configuration && Sane(d, again)
             && Apply(d, again, Change(mutation, PERFECT)).1 == Ok
    ensures var n := Counter(w.m.configuration, kind);
            Created(d, w, [Change(mutation, PERFECT), Reboot(true, boot), Change(mutation, PERFECT)], kind) == [n, n]
  {
    hide Sane, Apply, StartUp, Counter;
    var a, b := Change(mutation, PERFECT), Reboot(true, boot);
    assert DeviceValid(d) by { SaneDevice(d, w); }
    assert [a, b, a][..2] == [a, b] && [a, b][..1] == [a] && [a][..0] == [];
    assert LifeOf(d, w, []) == w && LifeOf(d, w, [a]) == Apply(d, w, a).0;
    assert LifeOf(d, w, [a, b]) == StartUp(d, Apply(d, w, a).0.slots, true, boot) by { RebootStarts(d, Apply(d, w, a).0, true, boot); }
    assert Created(d, w, [a], kind) == [Counter(w.m.configuration, kind)];
    assert Created(d, w, [a, b], kind) == [Counter(w.m.configuration, kind)];
  }

  lemma SaneDevice(d: Device, w: World)
    requires Sane(d, w)
    ensures DeviceValid(d)
  {
  }

  lemma RebootStarts(d: Device, w: World, opens: bool, boot: BootOutcome)
    requires Sane(d, w)
    ensures DeviceValid(d) && Apply(d, w, Reboot(opens, boot)).0 == StartUp(d, w.slots, opens, boot)
  {
  }

  /**
   In the stale trap the same id is created twice, and acknowledged twice: a controller that was just started, a creation, a reboot
   and the same creation again, on storage that does everything right.
   */
  lemma IdRepeatsInTheTrap(d: Device, slots: Slots, mutation: Mutation, kind: Kind)
    requires DeviceValid(d) && Trapped(slots, d.boardZones)
    requires var w := StartUp(d, slots, true, CLEAR); var draft := DraftOf(w.m.configuration, mutation);
             && FitTogether(d.defaults, w.m.configuration) && Creates(Change(mutation, PERFECT), kind)
             && draft.Draft? && Valid(draft.candidate, d.boardZones)
    ensures var w := StartUp(d, slots, true, CLEAR); var n := Counter(w.m.configuration, kind);
            && Sane(d, w)
            && Created(d, w, [Change(mutation, PERFECT), Reboot(true, CLEAR), Change(mutation, PERFECT)], kind) == [n, n]
  {
    hide Valid, StartUp, BootSees, DraftOf, InForce, FitTogether, LoadSlots, Counter, PlanSave, Created, Blob, Apply, Trapped, ReadSlot;
    var w := StartUp(d, slots, true, CLEAR);
    StartUpMeans(d, slots, true, CLEAR);
    StartUpInForce(d, slots, true, CLEAR);
    var c := DraftOf(w.m.configuration, mutation).candidate;
    ClearBootSees(slots, d.boardZones, CLEAR);
    TrappedLoads(slots, d.boardZones);
    SameStartUp(d, slots, CLEAR, slots, CLEAR);
    TrappedPlans(slots, c, d.boardZones);
    CreationWorks(d, w, mutation);
    var changed := Apply(d, w, Change(mutation, PERFECT)).0;
    assert LoadSlots(changed.slots, d.boardZones) == LoadSlots(slots, d.boardZones) by {
      TrapKeepsLoad(slots, c, d.boardZones);
    }
    ClearBootSees(changed.slots, d.boardZones, CLEAR);
    SameStartUp(d, slots, CLEAR, changed.slots, CLEAR);
    var again := StartUp(d, changed.slots, true, CLEAR);
    CreationWorks(d, again, mutation);
    CreatedTwice(d, w, mutation, CLEAR, kind);
  }

  /** In the trap a save goes ahead, and after it another one. */
  lemma TrappedPlans(slots: Slots, c: IrrigationConfiguration, boardZones: seq<Zone>)
    requires Trapped(slots, boardZones) && Valid(c, boardZones)
    ensures var plan := PlanSave(slots.0, slots.1, c, boardZones);
            && plan.Write?
            && (ReadSlot(Content(plan.blob), boardZones) == Slot(SlotValid, plan.generation, c) ==>
                var after := After(slots.0, slots.1, plan, Content(plan.blob));
                PlanSave(after.0, after.1, c, boardZones).Write?)
  {
    hide Valid, Blob, Decode, HeaderGeneration;
  }

  lemma TrapKeepsLoad(slots: Slots, c: IrrigationConfiguration, boardZones: seq<Zone>)
    requires Trapped(slots, boardZones) && PlanSave(slots.0, slots.1, c, boardZones).Write?
    ensures var plan := PlanSave(slots.0, slots.1, c, boardZones);
            LoadSlots(After(slots.0, slots.1, plan, Content(plan.blob)), boardZones) == LoadSlots(slots, boardZones)
  {
    hide Valid, Blob, ReadSlot, StaleTrap, SelectSlot, FirstIsNewest, NextGeneration, SaveResult;
    var plan := PlanSave(slots.0, slots.1, c, boardZones);
    PlannedSlotIsValid(slots.0, slots.1, c, boardZones);
    AcknowledgedLoads(slots.0, slots.1, c, true, Content(plan.blob), boardZones);
  }

  /** A boot that cannot read the newer slot comes up with the older one and creates the same id again. */
  lemma IdRepeatsAfterFailedRead(d: Device, stored: Stored, mutation: Mutation, kind: Kind)
    requires DeviceValid(d)
    requires ReadSlot(stored, d.boardZones).state == SlotValid && ReadSlot(stored, d.boardZones).generation + 2 <= U32_MAX
    requires var w := StartUp(d, (stored, Missing), true, CLEAR); var draft := DraftOf(w.m.configuration, mutation);
             && FitTogether(d.defaults, w.m.configuration) && Creates(Change(mutation, PERFECT), kind)
             && draft.Draft? && Valid(draft.candidate, d.boardZones)
    ensures var w := StartUp(d, (stored, Missing), true, CLEAR); var n := Counter(w.m.configuration, kind);
            && Sane(d, w)
            && Created(d, w, [Change(mutation, PERFECT), Reboot(true, CLEAR.(readBFails := true)), Change(mutation, PERFECT)], kind) == [n, n]
  {
    hide Valid, StartUp, DraftOf, InForce, FitTogether, Counter, PlanSave, Created, Blob, Apply, ReadSlot, BootSees;
    var slots, blind := (stored, Missing), CLEAR.(readBFails := true);
    var w := StartUp(d, slots, true, CLEAR);
    StartUpMeans(d, slots, true, CLEAR);
    StartUpInForce(d, slots, true, CLEAR);
    var c := DraftOf(w.m.configuration, mutation).candidate;
    FirstSlotSeen(stored, Missing, d.boardZones);
    SameStartUp(d, slots, CLEAR, slots, CLEAR);
    SecondSlotPlans(stored, c, d.boardZones);
    CreationWorks(d, w, mutation);
    var changed := Apply(d, w, Change(mutation, PERFECT)).0;
    FirstSlotSeen(stored, changed.slots.1, d.boardZones);
    SameStartUp(d, slots, CLEAR, changed.slots, blind);
    CreationWorks(d, StartUp(d, changed.slots, true, blind), mutation);
    CreatedTwice(d, w, mutation, blind, kind);
  }

  lemma FirstSlotSeen(stored: Stored, other: Stored, boardZones: seq<Zone>)
    requires ReadSlot(stored, boardZones).state == SlotValid
    ensures var first := ReadSlot(stored, boardZones);
            && BootSees((stored, Missing), boardZones, CLEAR) == Loaded(RepositoryOk, first.configuration, first.generation)
            && BootSees((stored, other), boardZones, CLEAR.(readBFails := true)) == Loaded(RepositoryOk, first.configuration, first.generation)
  {
    hide Valid, Decode, HeaderGeneration;
  }

  lemma SecondSlotPlans(stored: Stored, c: IrrigationConfiguration, boardZones: seq<Zone>)
    requires ReadSlot(stored, boardZones).state == SlotValid && ReadSlot(stored, boardZones).generation + 2 <= U32_MAX && Valid(c, boardZones)
    ensures var plan := PlanSave(stored, Missing, c, boardZones);
            && plan.Write? && plan.target == 1
            && (ReadSlot(Content(plan.blob), boardZones) == Slot(SlotValid, plan.generation, c) ==>
                PlanSave(stored, Content(plan.blob), c, boardZones).Write?)
  {
    hide Valid, Blob, Decode, HeaderGeneration;
  }
}
