/** The two-slot protocol: which slot is loaded, which one is written, and what a save promises. */
module SlotStore {
  import opened Bytes
  import opened Common
  import opened Configuration
  import opened Codec
  import opened CodecTheorems
  import Crc32

  /** What the storage holds under one key. */
  datatype Stored = Missing | Unreadable | Content(bytes: seq<byte>)

  datatype SlotState = SlotEmpty | SlotValid | SlotCorrupt | SlotIncompatible | SlotStorageError

  datatype Slot = Slot(state: SlotState, generation: u32, configuration: IrrigationConfiguration)

  datatype Loaded = Loaded(result: RepositoryResult, configuration: IrrigationConfiguration, generation: u32)

  datatype Plan = Refused(result: RepositoryResult) | Write(target: nat, generation: u32, blob: seq<byte>)

  function StateOf(result: RepositoryResult): SlotState {
    match result
    case RepositoryOk => SlotValid
    case Incompatible => SlotIncompatible
    case _ => SlotCorrupt
  }

  function ReadSlot(stored: Stored, boardZones: seq<Zone>): Slot {
    match stored
    case Missing => Slot(SlotEmpty, 0, EMPTY_CONFIGURATION)
    case Unreadable => Slot(SlotStorageError, 0, EMPTY_CONFIGURATION)
    case Content(bytes) =>
      if |bytes| > MAX_BLOB_SIZE then Slot(SlotStorageError, 0, EMPTY_CONFIGURATION)
      else
        var decoded := Decode(bytes, boardZones);
        Slot(StateOf(decoded.result), HeaderGeneration(bytes, 0), decoded.configuration)
  }

  predicate FirstIsNewest(a: Slot, b: Slot) {
    a.state == SlotValid && (b.state != SlotValid || a.generation >= b.generation)
  }

  function SelectSlot(a: Slot, b: Slot): Loaded {
    if FirstIsNewest(a, b) then Loaded(RepositoryOk, a.configuration, a.generation)
    else if b.state == SlotValid then Loaded(RepositoryOk, b.configuration, b.generation)
    else if a.state == SlotEmpty && b.state == SlotEmpty then Loaded(SlotsEmpty, EMPTY_CONFIGURATION, 0)
    else if a.state == SlotIncompatible || b.state == SlotIncompatible then Loaded(Incompatible, EMPTY_CONFIGURATION, 0)
    else if a.state == SlotStorageError || b.state == SlotStorageError then Loaded(StorageError, EMPTY_CONFIGURATION, 0)
    else Loaded(Corrupt, EMPTY_CONFIGURATION, 0)
  }

  function Load(a: Stored, b: Stored, boardZones: seq<Zone>): Loaded {
    SelectSlot(ReadSlot(a, boardZones), ReadSlot(b, boardZones))
  }

  /** The second test compares with `b.generation` whatever the state of slot B. */
  function NextGeneration(a: Slot, b: Slot): u32 {
    if a.state == SlotValid && a.generation >= b.generation then (a.generation + 1) % 0x1_0000_0000
    else if b.state == SlotValid then (b.generation + 1) % 0x1_0000_0000
    else 1
  }

  function PlanSave(a: Stored, b: Stored, c: IrrigationConfiguration, boardZones: seq<Zone>): Plan {
    if !Valid(c, boardZones) then Refused(InvalidConfiguration)
    else
      var first, second := ReadSlot(a, boardZones), ReadSlot(b, boardZones);
      var generation := NextGeneration(first, second);
      if first.state == SlotStorageError || second.state == SlotStorageError || generation == 0 then Refused(StorageError)
      else Write(if FirstIsNewest(first, second) then 1 else 0, generation, Blob(c, generation))
  }

  /** What a save answers, from the outcome of the write and from what it reads back. */
  function SaveResult(plan: Plan, written: bool, readBack: Stored, boardZones: seq<Zone>): RepositoryResult {
    match plan
    case Refused(result) => result
    case Write(_, generation, _) =>
      if !written || !readBack.Content? || |readBack.bytes| > MAX_BLOB_SIZE then StorageError
      else if Decode(readBack.bytes, boardZones).result != RepositoryOk then Corrupt
      else if HeaderGeneration(readBack.bytes, 0) != generation then Corrupt
      else RepositoryOk
  }

  /** The two slots after `landed` ended up in the planned one. */
  function After(a: Stored, b: Stored, plan: Plan, landed: Stored): (Stored, Stored)
    requires plan.Write?
  {
    if plan.target == 0 then (landed, b) else (a, landed)
  }

  function LoadAfter(a: Stored, b: Stored, plan: Plan, landed: Stored, boardZones: seq<Zone>): Loaded
    requires plan.Write?
  {
    var slots := After(a, b, plan, landed);
    Load(slots.0, slots.1, boardZones)
  }

  /** Whatever the slots hold, a configuration that is loaded is valid. */
  lemma LoadedIsValid(a: Stored, b: Stored, boardZones: seq<Zone>)
    ensures var loaded := Load(a, b, boardZones); loaded.result == RepositoryOk ==> Valid(loaded.configuration, boardZones)
  {
    hide Decode, Valid, Blob, HeaderGeneration;
    if a.Content? && ReadSlot(a, boardZones).state == SlotValid { DecodeIsStable(a.bytes, 0, boardZones); }
    if b.Content? && ReadSlot(b, boardZones).state == SlotValid { DecodeIsStable(b.bytes, 0, boardZones); }
  }

  // ----- A save that returned OK -----

  /**
   Slot A is valid, slot B is not, and B's header still carries a larger generation. The save then numbers its
   blob 1 although A is newer.
   */
  predicate StaleTrap(a: Slot, b: Slot) {
    a.state == SlotValid && b.state != SlotValid && 0 < a.generation < b.generation
  }

  predicate NewerThanAll(generation: u32, a: Slot, b: Slot) {
    (a.state == SlotValid ==> a.generation < generation) && (b.state == SlotValid ==> b.generation < generation)
  }

  lemma PlannedSlotIsValid(a: Stored, b: Stored, c: IrrigationConfiguration, boardZones: seq<Zone>)
    requires PlanSave(a, b, c, boardZones).Write?
    ensures var plan := PlanSave(a, b, c, boardZones);
            && ReadSlot(Content(plan.blob), boardZones) == Slot(SlotValid, plan.generation, c)
            && SaveResult(plan, true, Content(plan.blob), boardZones) == RepositoryOk
  {
    hide Valid, Decode, Blob, HeaderGeneration;
    RoundTrip(c, PlanSave(a, b, c, boardZones).generation, boardZones);
  }

  /** A lost write is never acknowledged: what reads back under the new generation is not what was there before. */
  lemma AcknowledgedIsNew(a: Stored, b: Stored, c: IrrigationConfiguration, written: bool, landed: Stored, boardZones: seq<Zone>)
    requires var plan := PlanSave(a, b, c, boardZones);
             plan.Write? && SaveResult(plan, written, landed, boardZones) == RepositoryOk
    ensures var plan := PlanSave(a, b, c, boardZones);
            && landed != (if plan.target == 0 then a else b)
            && ReadSlot(landed, boardZones).state == SlotValid && ReadSlot(landed, boardZones).generation == plan.generation
  {
    hide Valid, Decode, Blob, HeaderGeneration;
  }

  /**
   After any save that answered OK, whatever reached the slot, the next load returns what was read back, under a generation larger
   than that of every slot that was valid, if and only if the slots were not in the stale trap; in the trap it returns what it
   returned before.
   */
  lemma AcknowledgedLoads(a: Stored, b: Stored, c: IrrigationConfiguration, written: bool, landed: Stored, boardZones: seq<Zone>)
    requires var plan := PlanSave(a, b, c, boardZones);
             plan.Write? && SaveResult(plan, written, landed, boardZones) == RepositoryOk
    ensures var plan := PlanSave(a, b, c, boardZones); var after := LoadAfter(a, b, plan, landed, boardZones);
            var first, second := ReadSlot(a, boardZones), ReadSlot(b, boardZones);
            && (after == Loaded(RepositoryOk, ReadSlot(landed, boardZones).configuration, plan.generation) &&
                NewerThanAll(plan.generation, first, second)
                <==> !StaleTrap(first, second))
            && (StaleTrap(first, second) ==> after == Load(a, b, boardZones))
  {
    hide Valid, Decode, Blob, ReadSlot, HeaderGeneration, SaveResult, NextGeneration, StaleTrap, NewerThanAll, SelectSlot;
    AcknowledgedIsNew(a, b, c, written, landed, boardZones);
    SelectsNew(ReadSlot(a, boardZones), ReadSlot(b, boardZones), ReadSlot(landed, boardZones));
  }

  /** Of a slot written under the next generation and the one left alone, the new one is selected exactly outside the trap. */
  lemma SelectsNew(a: Slot, b: Slot, n: Slot)
    requires n.state == SlotValid && n.generation == NextGeneration(a, b) != 0
    ensures var after := if FirstIsNewest(a, b) then SelectSlot(a, n) else SelectSlot(n, b);
            && (after == Loaded(RepositoryOk, n.configuration, n.generation) && NewerThanAll(n.generation, a, b) <==> !StaleTrap(a, b))
            && (StaleTrap(a, b) ==> after == SelectSlot(a, b))
  {
  }

  // ----- A whole save -----

  /** What a write does to its slot. */
  datatype Landing = AsWritten | Unchanged | Other(content: Stored)

  /** How storage behaves during one save: two reads, a write and its commit, and the read-back. */
  datatype SaveOutcome = SaveOutcome(
    readAFails: bool, readBFails: bool, written: bool, committed: bool, lands: Landing, readBackFails: bool)

  type Slots = (Stored, Stored)

  function Seen(stored: Stored, fails: bool): Stored {
    if fails then Unreadable else stored
  }

  function Landed(lands: Landing, before: Stored, blob: seq<byte>): Stored {
    match lands
    case AsWritten => Content(blob)
    case Unchanged => before
    case Other(content) => content
  }

  /** The slots after a save, and its answer. */
  function Save(slots: Slots, c: IrrigationConfiguration, boardZones: seq<Zone>, o: SaveOutcome): (Slots, RepositoryResult) {
    var plan := PlanSave(Seen(slots.0, o.readAFails), Seen(slots.1, o.readBFails), c, boardZones);
    match plan
    case Refused(result) => (slots, result)
    case Write(target, _, blob) =>
      var landed := Landed(o.lands, if target == 0 then slots.0 else slots.1, blob);
      (After(slots.0, slots.1, plan, landed), SaveResult(plan, o.written && o.committed, Seen(landed, o.readBackFails), boardZones))
  }

  function LoadSlots(slots: Slots, boardZones: seq<Zone>): Loaded {
    Load(slots.0, slots.1, boardZones)
  }

  /** Storage may lose or damage what is written, but does not make up a blob that decodes. */
  predicate Honest(o: SaveOutcome, boardZones: seq<Zone>) {
    o.lands.Other? ==> ReadSlot(o.lands.content, boardZones).state != SlotValid
  }

  predicate Trapped(slots: Slots, boardZones: seq<Zone>) {
    StaleTrap(ReadSlot(slots.0, boardZones), ReadSlot(slots.1, boardZones))
  }

  /** A save that plans a write read both slots. */
  lemma PlannedOnSight(slots: Slots, c: IrrigationConfiguration, boardZones: seq<Zone>, o: SaveOutcome)
    requires PlanSave(Seen(slots.0, o.readAFails), Seen(slots.1, o.readBFails), c, boardZones).Write?
    ensures PlanSave(Seen(slots.0, o.readAFails), Seen(slots.1, o.readBFails), c, boardZones) == PlanSave(slots.0, slots.1, c, boardZones)
  {
    hide Valid, Decode, Blob, HeaderGeneration;
  }

  /**
   A save that answered OK, of all the ways storage can behave: the next load returns exactly what was read back, unless the slots
   were in the stale trap, where it returns what it returned before. The answer compares no more than the generation; what was
   read back is the saved configuration whenever storage made nothing up.
   */
  lemma SaveThenLoad(slots: Slots, c: IrrigationConfiguration, boardZones: seq<Zone>, o: SaveOutcome)
    requires Save(slots, c, boardZones, o).1 == RepositoryOk
    ensures var plan, after := PlanSave(slots.0, slots.1, c, boardZones), Save(slots, c, boardZones, o).0;
            && plan.Write? && plan.generation > 0
            && var read := ReadSlot(if plan.target == 0 then after.0 else after.1, boardZones);
               && read.state == SlotValid && read.generation == plan.generation
               && (Trapped(slots, boardZones) ==> LoadSlots(after, boardZones) == LoadSlots(slots, boardZones))
               && (!Trapped(slots, boardZones) ==> LoadSlots(after, boardZones) == Loaded(RepositoryOk, read.configuration, plan.generation))
               && (Honest(o, boardZones) ==> read.configuration == c)
  {
    hide Valid, Decode, Blob, ReadSlot, HeaderGeneration, SaveResult, NextGeneration, FirstIsNewest;
    var plan := PlanSave(Seen(slots.0, o.readAFails), Seen(slots.1, o.readBFails), c, boardZones);
    RefusedIsNotOk(Seen(slots.0, o.readAFails), Seen(slots.1, o.readBFails), c, boardZones);
    PlannedOnSight(slots, c, boardZones, o);
    var landed := Landed(o.lands, if plan.target == 0 then slots.0 else slots.1, plan.blob);
    assert !o.readBackFails by { UnreadableIsNotOk(plan, o, boardZones); }
    AcknowledgedIsNew(slots.0, slots.1, c, o.written && o.committed, landed, boardZones);
    AcknowledgedLoads(slots.0, slots.1, c, o.written && o.committed, landed, boardZones);
    PlannedSlotIsValid(slots.0, slots.1, c, boardZones);
  }

  lemma RefusedIsNotOk(a: Stored, b: Stored, c: IrrigationConfiguration, boardZones: seq<Zone>)
    ensures var plan := PlanSave(a, b, c, boardZones); plan.Refused? ==> SaveResult(plan, true, a, boardZones) == plan.result != RepositoryOk
    ensures var plan := PlanSave(a, b, c, boardZones); plan.Write? ==> plan.generation > 0 && Valid(c, boardZones)
  {
    hide Valid, Decode, Blob, HeaderGeneration;
  }

  lemma UnreadableIsNotOk(plan: Plan, o: SaveOutcome, boardZones: seq<Zone>)
    requires plan.Write?
    ensures SaveResult(plan, o.written && o.committed, Unreadable, boardZones) != RepositoryOk
  {
  }

  // ----- A save cut short -----

  /**
   Whatever undecodable bytes a cut-short save leaves in its slot, and also when it leaves the old ones, a load that
   succeeded before still returns the same configuration and generation, and one that failed still fails.
   */
  lemma CutShortKeepsOld(
    a: Stored, b: Stored, c: IrrigationConfiguration, landed: Stored, boardZones: seq<Zone>)
    requires var plan := PlanSave(a, b, c, boardZones);
             && plan.Write?
             && (ReadSlot(landed, boardZones).state == SlotValid ==> landed == if plan.target == 0 then a else b)
    ensures var after := LoadAfter(a, b, PlanSave(a, b, c, boardZones), landed, boardZones);
            var before := Load(a, b, boardZones);
            if before.result == RepositoryOk then after == before else after.result != RepositoryOk
  {
    hide Valid, Decode, Blob, ReadSlot;
  }

  /** With the blob written as well, only the old and the new configuration can be loaded, never anything else. */
  lemma CutShortIsAtomic(
    a: Stored, b: Stored, c: IrrigationConfiguration, landed: Stored, boardZones: seq<Zone>)
    requires var plan := PlanSave(a, b, c, boardZones);
             && plan.Write?
             && (ReadSlot(landed, boardZones).state == SlotValid ==>
                 landed == Content(plan.blob) || landed == if plan.target == 0 then a else b)
    ensures var plan := PlanSave(a, b, c, boardZones);
            var after := LoadAfter(a, b, plan, landed, boardZones);
            after.result == RepositoryOk ==>
              after == Load(a, b, boardZones) || after == Loaded(RepositoryOk, c, plan.generation)
  {
    hide Valid, Decode, Blob, ReadSlot;
    PlannedSlotIsValid(a, b, c, boardZones);
    if landed != Content(PlanSave(a, b, c, boardZones).blob) {
      CutShortKeepsOld(a, b, c, landed, boardZones);
    }
  }

  /**
   A storage that silently damages the blob inside four consecutive payload bytes is caught by the read-back: the save
   answers CORRUPT and the old configuration is still the one loaded.
   */
  lemma DamagedWriteIsReported(
    a: Stored, b: Stored, c: IrrigationConfiguration, damaged: seq<byte>, at: nat, boardZones: seq<Zone>)
    requires PlanSave(a, b, c, boardZones).Write?
    requires var blob := PlanSave(a, b, c, boardZones).blob;
             && |damaged| == |blob| && damaged != blob
             && |blob| >= HEADER_SIZE && damaged[..HEADER_SIZE] == blob[..HEADER_SIZE]
             && Crc32.WithinBurst(blob[HEADER_SIZE..], damaged[HEADER_SIZE..], at)
    ensures var plan := PlanSave(a, b, c, boardZones);
            && SaveResult(plan, true, Content(damaged), boardZones) == Corrupt
            && (var after, before := LoadAfter(a, b, plan, Content(damaged), boardZones), Load(a, b, boardZones);
                if before.result == RepositoryOk then after == before else after.result != RepositoryOk)
            && ReadSlot(Content(damaged), boardZones).generation == plan.generation
  {
    hide Valid, Decode, Blob, HeaderGeneration, Crc32.WithinBurst;
    var plan := PlanSave(a, b, c, boardZones);
    RoundTrip(c, plan.generation, boardZones);
    BurstIsCorrupt(plan.blob, damaged, at, boardZones);
    CutShortKeepsOld(a, b, c, Content(damaged), boardZones);
  }

  /**
   The trap is reachable from empty storage: one good save, one save damaged on its way, and then a save that is
   written perfectly and answers OK, but is not the one that loads.
   */
  lemma TrapIsReachable(
    c0: IrrigationConfiguration, c1: IrrigationConfiguration, c2: IrrigationConfiguration,
    damaged: seq<byte>, at: nat, boardZones: seq<Zone>)
    requires Valid(c0, boardZones) && Valid(c1, boardZones) && Valid(c2, boardZones)
    requires |Blob(c1, 2)| == |damaged| >= HEADER_SIZE && damaged != Blob(c1, 2)
    requires damaged[..HEADER_SIZE] == Blob(c1, 2)[..HEADER_SIZE]
    requires Crc32.WithinBurst(Blob(c1, 2)[HEADER_SIZE..], damaged[HEADER_SIZE..], at)
    ensures PlanSave(Missing, Missing, c0, boardZones) == Write(0, 1, Blob(c0, 1))
    ensures PlanSave(Content(Blob(c0, 1)), Missing, c1, boardZones) == Write(1, 2, Blob(c1, 2))
    ensures var plan := PlanSave(Content(Blob(c0, 1)), Content(damaged), c2, boardZones);
            && plan == Write(1, 1, Blob(c2, 1))
            && SaveResult(plan, true, Content(plan.blob), boardZones) == RepositoryOk
            && Load(Content(Blob(c0, 1)), Content(plan.blob), boardZones) == Loaded(RepositoryOk, c0, 1)
  {
    hide Valid, Decode, Blob, HeaderGeneration, Crc32.WithinBurst;
    RoundTrip(c0, 1, boardZones);
    RoundTrip(c1, 2, boardZones);
    RoundTrip(c2, 1, boardZones);
    BurstIsCorrupt(Blob(c1, 2), damaged, at, boardZones);
  }

  /** Acknowledged or not, a save leaves the next load as it was, or makes it return the new configuration, or it fails as before. */
  lemma SaveIsAtomic(slots: Slots, c: IrrigationConfiguration, boardZones: seq<Zone>, o: SaveOutcome)
    requires Honest(o, boardZones)
    ensures var before, after := LoadSlots(slots, boardZones), LoadSlots(Save(slots, c, boardZones, o).0, boardZones);
            || after == before
            || (after.result == RepositoryOk && after.configuration == c && Valid(c, boardZones))
            || (before.result != RepositoryOk && after.result != RepositoryOk)
  {
    hide Valid, Decode, Blob, ReadSlot, HeaderGeneration, SaveResult, NextGeneration, FirstIsNewest, SelectSlot;
    var plan := PlanSave(Seen(slots.0, o.readAFails), Seen(slots.1, o.readBFails), c, boardZones);
    if plan.Write? {
      PlannedOnSight(slots, c, boardZones, o);
      RefusedIsNotOk(slots.0, slots.1, c, boardZones);
      var landed := Landed(o.lands, if plan.target == 0 then slots.0 else slots.1, plan.blob);
      CutShortIsAtomic(slots.0, slots.1, c, landed, boardZones);
      if landed != Content(plan.blob) {
        CutShortKeepsOld(slots.0, slots.1, c, landed, boardZones);
      } else {
        PlannedSlotIsValid(slots.0, slots.1, c, boardZones);
        ValidLoads(Save(slots, c, boardZones, o).0, boardZones);
      }
    }
  }

  lemma ValidLoads(slots: Slots, boardZones: seq<Zone>)
    requires ReadSlot(slots.0, boardZones).state == SlotValid || ReadSlot(slots.1, boardZones).state == SlotValid
    ensures LoadSlots(slots, boardZones).result == RepositoryOk
  {
    hide ReadSlot;
  }

  // ----- Whole runs of saves -----

  /** One save, and whether its blob reached storage or was lost before anything changed. */
  datatype SaveAttempt = SaveAttempt(configuration: IrrigationConfiguration, reaches: bool)

  function RunSlots(attempts: seq<SaveAttempt>, boardZones: seq<Zone>): (Stored, Stored) {
    if attempts == [] then (Missing, Missing)
    else
      var (a, b) := RunSlots(attempts[..|attempts| - 1], boardZones);
      var last := attempts[|attempts| - 1];
      var plan := PlanSave(a, b, last.configuration, boardZones);
      if plan.Write? && last.reaches then After(a, b, plan, Content(plan.blob)) else (a, b)
  }

  /** What the last successful attempt saved, and how many there were. */
  function LastSaved(attempts: seq<SaveAttempt>, boardZones: seq<Zone>): (Option<IrrigationConfiguration>, nat) {
    if attempts == [] then (None, 0)
    else
      var (saved, count) := LastSaved(attempts[..|attempts| - 1], boardZones);
      var last := attempts[|attempts| - 1];
      if last.reaches && Valid(last.configuration, boardZones) then (Some(last.configuration), count + 1)
      else (saved, count)
  }

  lemma {:induction false} LastSavedCount(attempts: seq<SaveAttempt>, boardZones: seq<Zone>)
    ensures var (saved, count) := LastSaved(attempts, boardZones);
            count <= |attempts| && (saved.None? <==> count == 0)
  {
    if attempts != [] {
      LastSavedCount(attempts[..|attempts| - 1], boardZones);
    }
  }

  /** Both slots are empty or valid, and what loads is the last saved configuration, numbered by the saves so far. */
  predicate LoadsLast(slots: (Stored, Stored), saved: (Option<IrrigationConfiguration>, nat), boardZones: seq<Zone>) {
    var a, b := ReadSlot(slots.0, boardZones), ReadSlot(slots.1, boardZones);
    && saved.1 <= U32_MAX
    && (a.state == SlotValid || (a.state == SlotEmpty && a.generation == 0 && saved.1 == 0))
    && (b.state == SlotValid || (b.state == SlotEmpty && b.generation == 0))
    && SelectSlot(a, b) ==
       (if saved.0.Some? then Loaded(RepositoryOk, saved.0.value, saved.1) else Loaded(SlotsEmpty, EMPTY_CONFIGURATION, 0))
  }

  /**
   From empty storage, after any run of saves of which some are lost, loading returns the last one that reached storage,
   under the number of those saves.
   */
  lemma {:induction false} RunLoadsLastSaved(attempts: seq<SaveAttempt>, boardZones: seq<Zone>)
    requires |attempts| < U32_MAX
    ensures LoadsLast(RunSlots(attempts, boardZones), LastSaved(attempts, boardZones), boardZones)
  {
    hide Decode, Blob, Valid, ReadSlot, LoadsLast;
    LastSavedCount(attempts, boardZones);
    if attempts == [] {
      NothingLoads(boardZones);
    } else {
      var init, last := attempts[..|attempts| - 1], attempts[|attempts| - 1];
      RunLoadsLastSaved(init, boardZones);
      LastSavedCount(init, boardZones);
      SaveKeepsLoadsLast(RunSlots(init, boardZones), LastSaved(init, boardZones), last.configuration, boardZones);
    }
  }

  lemma NothingLoads(boardZones: seq<Zone>)
    ensures LoadsLast((Missing, Missing), (None, 0), boardZones)
  {
  }

  lemma SaveKeepsLoadsLast(
    slots: (Stored, Stored), saved: (Option<IrrigationConfiguration>, nat), c: IrrigationConfiguration, boardZones: seq<Zone>)
    requires LoadsLast(slots, saved, boardZones) && saved.1 < U32_MAX && (saved.0.None? <==> saved.1 == 0)
    ensures var plan := PlanSave(slots.0, slots.1, c, boardZones);
            if Valid(c, boardZones)
            then plan.Write? && LoadsLast(After(slots.0, slots.1, plan, Content(plan.blob)), (Some(c), saved.1 + 1), boardZones)
            else plan == Refused(InvalidConfiguration)
  {
    hide Decode, Blob, Valid, ReadSlot, SaveResult;
    if Valid(c, boardZones) {
      PlannedSlotIsValid(slots.0, slots.1, c, boardZones);
      AcknowledgedLoads(slots.0, slots.1, c, true, Content(PlanSave(slots.0, slots.1, c, boardZones).blob), boardZones);
    }
  }

  // ----- Runs on any storage -----

  datatype Attempt = Attempt(configuration: IrrigationConfiguration, outcome: SaveOutcome)

  function RunSaves(slots: Slots, attempts: seq<Attempt>, boardZones: seq<Zone>): Slots {
    if attempts == [] then slots
    else
      var last := attempts[|attempts| - 1];
      Save(RunSaves(slots, attempts[..|attempts| - 1], boardZones), last.configuration, boardZones, last.outcome).0
  }

  function AnswerAt(slots: Slots, attempts: seq<Attempt>, boardZones: seq<Zone>, k: nat): RepositoryResult
    requires k < |attempts|
  {
    Save(RunSaves(slots, attempts[..k], boardZones), attempts[k].configuration, boardZones, attempts[k].outcome).1
  }

  /** Storage makes nothing up, and no save is acknowledged in the stale trap. */
  predicate TrapFree(slots: Slots, attempts: seq<Attempt>, boardZones: seq<Zone>) {
    attempts == [] ||
    var init, last := attempts[..|attempts| - 1], attempts[|attempts| - 1];
    var before := RunSaves(slots, init, boardZones);
    && TrapFree(slots, init, boardZones) && Honest(last.outcome, boardZones)
    && (Save(before, last.configuration, boardZones, last.outcome).1 == RepositoryOk ==> !Trapped(before, boardZones))
  }

  predicate LoadsSomeFrom(loaded: Loaded, attempts: seq<Attempt>, k: nat) {
    loaded.result == RepositoryOk && exists j :: k <= j < |attempts| && loaded.configuration == attempts[j].configuration
  }

  /**
   Saves may be lost, cut short, damaged, reported wrongly, and their reads may fail, in any order and any number: what an
   acknowledged save stored is never lost, it is only ever replaced by what a later save was given.
   */
  lemma {:induction false} AcknowledgedIsNeverLost(slots: Slots, attempts: seq<Attempt>, boardZones: seq<Zone>, k: nat)
    requires TrapFree(slots, attempts, boardZones)
    requires k < |attempts| && AnswerAt(slots, attempts, boardZones, k) == RepositoryOk
    ensures LoadsSomeFrom(LoadSlots(RunSaves(slots, attempts, boardZones), boardZones), attempts, k)
    decreases |attempts|
  {
    hide Save, Trapped, LoadSlots, Honest, Valid;
    var init, last := attempts[..|attempts| - 1], attempts[|attempts| - 1];
    var before := RunSaves(slots, init, boardZones);
    if k == |init| {
      SaveThenLoad(before, last.configuration, boardZones, last.outcome);
      assert attempts[k].configuration == last.configuration;
    } else {
      assert attempts[..k] == init[..k];
      AcknowledgedIsNeverLost(slots, init, boardZones, k);
      SaveIsAtomic(before, last.configuration, boardZones, last.outcome);
      var j :| k <= j < |init| && LoadSlots(before, boardZones).configuration == init[j].configuration;
      assert attempts[j] == init[j] && attempts[|init|] == last;
    }
  }
}
