/** Loads, saves and boots, stated over the bytes that the two slots hold. */
module SlotContents {
  import opened Bytes
  import opened Common
  import opened Configuration
  import opened Codec
  import opened CodecLayout
  import opened SlotStore
  import opened ManagerOperations
  import opened ConfigurationRuns
  import opened RuntimeViews

  // ----- What a slot holds -----

  /** Bytes of a size that a blob can have. */
  predicate Sized(stored: Stored) {
    stored.Content? && |stored.bytes| <= 3041
  }

  /** A header of this program and this version, whatever follows. */
  predicate Headed(stored: Stored) {
    Sized(stored) && Magic(stored.bytes) && LittleEndian(stored.bytes, 4, 2) == 1
  }

  /** A sealed blob with the fields of a valid configuration, under a generation. */
  ghost predicate Keeps(stored: Stored, c: IrrigationConfiguration, generation: u32, boardZones: seq<Zone>) {
    && Headed(stored) && Sealed(stored.bytes) && Holding(stored.bytes, c) && Valid(c, boardZones)
    && LittleEndian(stored.bytes, 6, 4) == generation
  }

  ghost predicate KeepsSome(stored: Stored, boardZones: seq<Zone>) {
    exists c, generation :: Keeps(stored, c, generation, boardZones)
  }

  /** Written by a firmware with another format. */
  predicate OtherFormat(stored: Stored) {
    Sized(stored) && Magic(stored.bytes) && (LittleEndian(stored.bytes, 4, 2) != 1 || (Sealed(stored.bytes) && Foreign(stored.bytes)))
  }

  /** The read itself fails, or what is there does not fit the buffer. */
  predicate Failing(stored: Stored) {
    stored.Unreadable? || (stored.Content? && |stored.bytes| > 3041)
  }

  lemma HoldingIsNotForeign(data: seq<byte>, c: IrrigationConfiguration)
    requires Holding(data, c)
    ensures !Foreign(data)
  {
    hide EndOf, LittleEndian, AllFields;
    var rest := AllFields(c.zones, ZoneFields) + (AllFields(c.programs, ProgramFields) + AllFields(c.schedules, ScheduleFields));
    EndOfJoin(data, 16, CountFields(c), rest, false);
    var counted := EndOf(data, 16, CountFields(c), false).value;
    CountsAreRead(data, 16, c, counted);
    NumberIsRead(data, 16, LittleEndian(data, 16, 2));
  }

  /** What the repository makes of a slot. */
  lemma SlotReads(stored: Stored, boardZones: seq<Zone>)
    ensures var slot := ReadSlot(stored, boardZones);
            && (slot.state == SlotValid <==> KeepsSome(stored, boardZones))
            && (slot.state == SlotEmpty <==> stored == Missing)
            && (slot.state == SlotStorageError <==> Failing(stored))
            && (slot.state == SlotIncompatible <==> OtherFormat(stored))
            && slot.generation == (if Headed(stored) then LittleEndian(stored.bytes, 6, 4) else 0)
            && forall c, generation :: Keeps(stored, c, generation, boardZones) ==> slot == Slot(SlotValid, generation, c)
  {
    hide EndOf, LittleEndian, Valid, Decode, Magic, Sealed, Foreign, HeaderGeneration, Readable, PayloadFields;
    if Sized(stored) {
      var data := stored.bytes;
      DecodeExactly(data, boardZones);
      GenerationIsInTheHeader(data, 0);
      forall c | Holding(data, c) ensures !Foreign(data) { HoldingIsNotForeign(data, c); }
      if c :| Headed(stored) && |data| >= 16 && Sealed(data) && Holding(data, c) && Valid(c, boardZones) {
        assert Keeps(stored, c, LittleEndian(data, 6, 4), boardZones);
      }
    }
  }

  // ----- Loading -----

  ghost predicate NothingKept(a: Stored, b: Stored, boardZones: seq<Zone>) {
    !KeepsSome(a, boardZones) && !KeepsSome(b, boardZones)
  }

  /** Which failure a load reports when neither slot keeps a configuration. */
  function FailureOf(a: Stored, b: Stored): RepositoryResult {
    if a == Missing && b == Missing then SlotsEmpty
    else if OtherFormat(a) || OtherFormat(b) then Incompatible
    else if Failing(a) || Failing(b) then RepositoryResult.StorageError
    else Corrupt
  }

  /**
   A load returns the configuration of the slot that keeps one under the greater generation, the first of two equal ones; if neither
   slot keeps one it reports another format before a failing read, and that before damage.
   */
  lemma LoadExactly(a: Stored, b: Stored, boardZones: seq<Zone>)
    ensures var loaded := Load(a, b, boardZones);
            && (forall c, g :: Keeps(a, c, g, boardZones) && (forall d, h :: Keeps(b, d, h, boardZones) ==> h <= g) ==>
                  loaded == Loaded(RepositoryOk, c, g))
            && (forall c, g :: Keeps(b, c, g, boardZones) && (forall d, h :: Keeps(a, d, h, boardZones) ==> h < g) ==>
                  loaded == Loaded(RepositoryOk, c, g))
            && (NothingKept(a, b, boardZones) ==> loaded.result == FailureOf(a, b))
            && (loaded.result == RepositoryOk ==>
                Keeps(a, loaded.configuration, loaded.generation, boardZones) || Keeps(b, loaded.configuration, loaded.generation, boardZones))
  {
    hide ReadSlot, Keeps, OtherFormat, Failing;
    SlotReads(a, boardZones);
    SlotReads(b, boardZones);
    if KeepsSome(a, boardZones) { var c, g :| Keeps(a, c, g, boardZones); }
    if KeepsSome(b, boardZones) { var c, g :| Keeps(b, c, g, boardZones); }
  }

  // ----- Saving -----

  /** What a save sees of a slot. */
  function AsRead(stored: Stored, fails: bool): Stored {
    if fails then Unreadable else stored
  }

  /** The number in the header, if it can be read. */
  function HeaderNumber(stored: Stored): u32 {
    if Headed(stored) then LittleEndian(stored.bytes, 6, 4) else 0
  }

  /** The first slot keeps a configuration that the second does not outdate. */
  ghost predicate FirstIsCurrent(a: Stored, b: Stored, boardZones: seq<Zone>) {
    KeepsSome(a, boardZones) && (KeepsSome(b, boardZones) ==> HeaderNumber(a) >= HeaderNumber(b))
  }

  /** The number of the next blob; what the header of the second slot says counts even if the rest of it is damaged. */
  ghost function NextNumber(a: Stored, b: Stored, boardZones: seq<Zone>): nat {
    if KeepsSome(a, boardZones) && HeaderNumber(a) >= HeaderNumber(b) then HeaderNumber(a) + 1
    else if KeepsSome(b, boardZones) then HeaderNumber(b) + 1
    else 1
  }

  /** What a blob that was read back makes of the answer. */
  ghost function Confirmed(back: Stored, number: nat, boardZones: seq<Zone>): RepositoryResult {
    if !Sized(back) then RepositoryResult.StorageError
    else if KeepsSome(back, boardZones) && HeaderNumber(back) == number then RepositoryOk
    else Corrupt
  }

  /**
   A save refuses an invalid configuration, a read that fails, and a number that no longer fits 32 bits, and then writes nothing.
   Otherwise it writes the blob of the configuration under the next number over the slot that is not current, and answers OK exactly
   if it was written and a configuration reads back under that number.
   */
  lemma SaveExactly(slots: Slots, c: IrrigationConfiguration, boardZones: seq<Zone>, o: SaveOutcome)
    ensures var a, b := AsRead(slots.0, o.readAFails), AsRead(slots.1, o.readBFails);
            var number := NextNumber(a, b, boardZones);
            var (after, result) := Save(slots, c, boardZones, o);
            if !Valid(c, boardZones) then (after, result) == (slots, InvalidConfiguration)
            else if Failing(a) || Failing(b) || number > 0xffff_ffff then (after, result) == (slots, RepositoryResult.StorageError)
            else
              var first := FirstIsCurrent(a, b, boardZones);
              var before := if first then slots.1 else slots.0;
              var landed :=
                match o.lands case AsWritten => Content(Blob(c, number)) case Unchanged => before case Other(content) => content;
              && after == (if first then (slots.0, landed) else (landed, slots.1))
              && result == (if o.written && o.committed then Confirmed(AsRead(landed, o.readBackFails), number, boardZones)
                            else RepositoryResult.StorageError)
  {
    hide ReadSlot, Keeps, OtherFormat, Failing, Valid, Decode, HeaderGeneration, Blob, Headed, LittleEndian, SaveResult;
    var a, b := AsRead(slots.0, o.readAFails), AsRead(slots.1, o.readBFails);
    SlotReads(a, boardZones);
    SlotReads(b, boardZones);
    KeptIsHeaded(a, boardZones);
    KeptIsHeaded(b, boardZones);
    var plan := PlanSave(a, b, c, boardZones);
    if plan.Write? {
      var landed := Landed(o.lands, if plan.target == 0 then slots.0 else slots.1, plan.blob);
      Answered(plan, o.written && o.committed, AsRead(landed, o.readBackFails), boardZones);
    } else {
      RefusedAnswer(plan, o.written && o.committed, slots.0, boardZones);
    }
  }

  lemma KeptIsHeaded(stored: Stored, boardZones: seq<Zone>)
    ensures KeepsSome(stored, boardZones) ==> Headed(stored)
  {
    hide Headed, Sealed, Holding, Valid;
  }

  lemma RefusedAnswer(plan: Plan, written: bool, back: Stored, boardZones: seq<Zone>)
    requires plan.Refused?
    ensures SaveResult(plan, written, back, boardZones) == plan.result
  {
  }

  lemma Answered(plan: Plan, written: bool, back: Stored, boardZones: seq<Zone>)
    requires plan.Write? && plan.generation > 0
    ensures SaveResult(plan, written, back, boardZones) ==
            if written then Confirmed(back, plan.generation, boardZones) else RepositoryResult.StorageError
  {
    hide Keeps, Valid, Decode, HeaderGeneration, Headed, LittleEndian;
    SlotReads(back, boardZones);
    KeptIsHeaded(back, boardZones);
  }

  // ----- Booting -----

  /**
   A boot takes over the configuration that loads. Over two empty slots it stores the defaults and says whether that was acknowledged;
   over storage of another format, storage that cannot be read, or damaged storage it keeps the defaults and leaves both slots alone.
   */
  lemma BootExactly(m: Manager, slots: Slots, boardZones: seq<Zone>, o: BootOutcome)
    requires Usable(m)
    ensures var a, b := AsRead(slots.0, o.readAFails), AsRead(slots.1, o.readBFails);
            var (after, stored, result) := LoadOrPersist(m, slots, boardZones, o);
            && (result == BootLoaded <==> !NothingKept(a, b, boardZones))
            && (result == BootLoaded ==>
                && stored == slots && after.live == m.live && after.configuration == Load(a, b, boardZones).configuration
                && exists g :: Keeps(a, after.configuration, g, boardZones) || Keeps(b, after.configuration, g, boardZones))
            && (result != BootLoaded ==> after == m)
            && (NothingKept(a, b, boardZones) && (a != Missing || b != Missing) ==>
                && stored == slots
                && result == if OtherFormat(a) || OtherFormat(b) then BootDefaultsIncompatible
                             else if Failing(a) || Failing(b) then BootStorageError
                             else BootDefaultsCorrupt)
            && (a == Missing && b == Missing ==>
                var (written, answer) := Save(slots, m.configuration, boardZones, o.save);
                stored == written && result == if answer == RepositoryOk then BootDefaultsPersisted else BootStorageError)
  {
    hide ReadSlot, Keeps, OtherFormat, Failing, Valid, Save, Rebuild, SelectSlot;
    var a, b := AsRead(slots.0, o.readAFails), AsRead(slots.1, o.readBFails);
    LoadExactly(a, b, boardZones);
    KeptLoads(a, b, boardZones);
    MissingKeepsNothing(boardZones);
    LoadedIsValid(a, b, boardZones);
  }

  lemma KeptLoads(a: Stored, b: Stored, boardZones: seq<Zone>)
    ensures Load(a, b, boardZones).result == RepositoryOk <==> !NothingKept(a, b, boardZones)
  {
    hide ReadSlot, Keeps;
    SlotReads(a, boardZones);
    SlotReads(b, boardZones);
  }

  lemma MissingKeepsNothing(boardZones: seq<Zone>)
    ensures !KeepsSome(Missing, boardZones)
  {
  }

  /** A boot has nowhere to save to: the storage could not be read, or the defaults could not be stored in it. */
  ghost predicate Unusable(defaults: IrrigationConfiguration, slots: Slots, boardZones: seq<Zone>, o: BootOutcome) {
    var a, b := AsRead(slots.0, o.readAFails), AsRead(slots.1, o.readBFails);
    && NothingKept(a, b, boardZones)
    && if a == Missing && b == Missing then Save(slots, defaults, boardZones, o.save).1 != RepositoryOk
       else !OtherFormat(a) && !OtherFormat(b) && (Failing(a) || Failing(b))
  }

  /**
   A start-up without a storage partition runs on the defaults and leaves the slots alone. With one it runs on what loads, or on the
   defaults; a repository is bound, so that mutations can be acknowledged, exactly if there is a partition that can be used.
   */
  lemma StartUpExactly(d: Device, slots: Slots, opens: bool, boot: BootOutcome)
    requires DeviceValid(d)
    ensures var w := StartUp(d, slots, opens, boot);
            var a, b := AsRead(slots.0, boot.readAFails), AsRead(slots.1, boot.readBFails);
            && (w.bound <==> opens && !Unusable(d.defaults, slots, d.boardZones, boot))
            && w.m.configuration == (if opens && !NothingKept(a, b, d.boardZones) then Load(a, b, d.boardZones).configuration else d.defaults)
            && w.slots == (if opens && a == Missing && b == Missing then Save(slots, d.defaults, d.boardZones, boot.save).0 else slots)
  {
    hide NothingKept, OtherFormat, Failing, Valid, Save, LoadOrPersist, Load, ConfigureLive, Rebuild;
    var a, b := AsRead(slots.0, boot.readAFails), AsRead(slots.1, boot.readBFails);
    var blank := BlankManager(d);
    BootExactly(blank, slots, d.boardZones, boot);
    EmptyKeepsNothing(a, b, d.boardZones);
  }

  lemma EmptyKeepsNothing(a: Stored, b: Stored, boardZones: seq<Zone>)
    ensures a == Missing && b == Missing ==> NothingKept(a, b, boardZones)
  {
    MissingKeepsNothing(boardZones);
  }
}
