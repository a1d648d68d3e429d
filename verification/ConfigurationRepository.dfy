/** The repository object over a storage that may fail, proved against the two-slot protocol. */
module ConfigurationRepository {
  import opened Bytes
  import opened Common
  import opened Configuration
  import opened Codec
  import opened SlotStore
  import CodecTheorems
  import CodecMethods

  /** What one write does: whether it and its commit answer OK, and what the slot holds afterwards. */
  datatype WriteOutcome = WriteOutcome(written: bool, committed: bool, lands: Landing)

  /** Non-volatile storage under two keys. Its behaviour is a parameter: any read, write or commit may fail. */
  class Storage {
    const readFails: nat -> bool
    const writeOutcome: nat -> WriteOutcome
    var slots: seq<Stored>
    var readCount: nat
    var writeCount: nat

    ghost predicate Valid()
      reads this
    {
      |slots| == 2
    }

    ghost function Both(): Slots
      requires Valid()
      reads this
    {
      (slots[0], slots[1])
    }

    /** How a save whose first read is numbered `read` goes: it reads both slots, writes, and reads back. */
    ghost function SaveAt(read: nat): SaveOutcome
      reads this
    {
      var write := writeOutcome(writeCount);
      SaveOutcome(readFails(read), readFails(read + 1), write.written, write.committed, write.lands, readFails(read + 2))
    }

    constructor (readFails: nat -> bool, writeOutcome: nat -> WriteOutcome)
      ensures Valid() && slots == [Missing, Missing] && readCount == writeCount == 0
    {
      this.readFails := readFails;
      this.writeOutcome := writeOutcome;
      slots := [Missing, Missing];
      readCount := 0;
      writeCount := 0;
    }

    method Read(index: nat, buffer: array<byte>) returns (result: RepositoryResult, length: nat)
      requires Valid() && index < 2
      modifies this`readCount, buffer
      ensures readCount == old(readCount) + 1
      ensures match old(Seen(slots[index], readFails(readCount))) {
                case Missing => result == SlotsEmpty
                case Unreadable => result == StorageError
                case Content(bytes) =>
                  if |bytes| > buffer.Length then result == StorageError
                  else result == RepositoryOk && length == |bytes| && buffer[..length] == bytes
              }
    {
      var fails := readFails(readCount);
      readCount := readCount + 1;
      if fails { return StorageError, 0; }
      match slots[index] {
        case Missing => return SlotsEmpty, 0;
        case Unreadable => return StorageError, 0;
        case Content(bytes) =>
          if |bytes| > buffer.Length { return StorageError, 0; }
          for i := 0 to |bytes|
            invariant buffer[..i] == bytes[..i]
            invariant readCount == old(readCount) + 1
          {
            buffer[i] := bytes[i];
            assert buffer[..i + 1] == buffer[..i] + [bytes[i]];
          }
          assert bytes[..|bytes|] == bytes;
          return RepositoryOk, |bytes|;
      }
    }

    method Write(index: nat, buffer: array<byte>, length: nat) returns (ok: bool)
      requires Valid() && index < 2 && length <= buffer.Length
      modifies this`slots, this`writeCount
      ensures Valid() && writeCount == old(writeCount) + 1
      ensures ok == writeOutcome(old(writeCount)).written
      ensures slots == old(slots)[index := Landed(writeOutcome(old(writeCount)).lands, old(slots)[index], buffer[..length])]
    {
      var outcome := writeOutcome(writeCount);
      match outcome.lands {
        case AsWritten => slots := slots[index := Content(buffer[..length])];
        case Unchanged =>
        case Other(content) => slots := slots[index := content];
      }
      writeCount := writeCount + 1;
      ok := outcome.written;
    }

    method Commit() returns (ok: bool)
      requires writeCount > 0
      ensures ok == writeOutcome(writeCount - 1).committed
    {
      ok := writeOutcome(writeCount - 1).committed;
    }
  }

  class Repository {
    const storage: Storage
    const slotBuffers: seq<array<byte>>

    ghost predicate Valid()
      reads this, storage
    {
      && storage.Valid()
      && |slotBuffers| == 2
      && slotBuffers[0].Length == MAX_BLOB_SIZE && slotBuffers[1].Length == MAX_BLOB_SIZE
    }

    constructor (storage: Storage)
      requires storage.Valid()
      ensures Valid() && this.storage == storage && fresh(slotBuffers[0]) && fresh(slotBuffers[1])
    {
      this.storage := storage;
      var first := new byte[MAX_BLOB_SIZE](_ => 0);
      var second := new byte[MAX_BLOB_SIZE](_ => 0);
      slotBuffers := [first, second];
    }

    method ReadSlot(index: nat, boardZones: seq<Zone>) returns (slot: Slot)
      requires Valid() && index < 2
      modifies storage`readCount, slotBuffers[index]
      ensures Valid() && storage.readCount == old(storage.readCount) + 1
      ensures slot == SlotStore.ReadSlot(old(Seen(storage.slots[index], storage.readFails(storage.readCount))), boardZones)
    {
      hide Codec.Decode, HeaderGeneration;
      var result, length := storage.Read(index, slotBuffers[index]);
      if result == SlotsEmpty { return Slot(SlotEmpty, 0, EMPTY_CONFIGURATION); }
      if result != RepositoryOk { return Slot(SlotStorageError, 0, EMPTY_CONFIGURATION); }
      var decoded, generation := CodecMethods.Decode(slotBuffers[index], length, 0, boardZones);
      return Slot(StateOf(decoded.result), generation, decoded.configuration);
    }

    /** Loading computes the selection of the protocol on what the two reads saw. */
    method Load(boardZones: seq<Zone>) returns (loaded: Loaded)
      requires Valid()
      modifies storage`readCount, slotBuffers[0], slotBuffers[1]
      ensures Valid() && storage.readCount == old(storage.readCount) + 2
      ensures loaded == old(SlotStore.Load(Seen(storage.slots[0], storage.readFails(storage.readCount)),
                                           Seen(storage.slots[1], storage.readFails(storage.readCount + 1)), boardZones))
    {
      hide SlotStore.ReadSlot;
      var a := ReadSlot(0, boardZones);
      var b := ReadSlot(1, boardZones);
      if a.state == SlotValid && (b.state != SlotValid || a.generation >= b.generation) {
        return Loaded(RepositoryOk, a.configuration, a.generation);
      }
      if b.state == SlotValid { return Loaded(RepositoryOk, b.configuration, b.generation); }
      if a.state == SlotEmpty && b.state == SlotEmpty { return Loaded(SlotsEmpty, EMPTY_CONFIGURATION, 0); }
      if a.state == SlotIncompatible || b.state == SlotIncompatible { return Loaded(Incompatible, EMPTY_CONFIGURATION, 0); }
      if a.state == SlotStorageError || b.state == SlotStorageError { return Loaded(StorageError, EMPTY_CONFIGURATION, 0); }
      return Loaded(Corrupt, EMPTY_CONFIGURATION, 0);
    }

    /** The second half of a save: write the blob, read it back, and compare its generation. */
    method WriteAndVerify(target: nat, c: IrrigationConfiguration, generation: u32, boardZones: seq<Zone>)
      returns (result: RepositoryResult)
      requires Valid() && target < 2 && Configuration.Valid(c, boardZones)
      modifies storage, slotBuffers[target]
      ensures Valid()
      ensures var plan := Plan.Write(target, generation, Blob(c, generation));
              var outcome := storage.writeOutcome(old(storage.writeCount));
              var landed := Landed(outcome.lands, old(storage.slots)[target], plan.blob);
              && storage.slots == old(storage.slots)[target := landed]
              && result == SaveResult(plan, outcome.written && outcome.committed,
                                      Seen(landed, storage.readFails(old(storage.readCount))), boardZones)
    {
      hide Codec.Decode, HeaderGeneration, Blob, Configuration.Valid;
      CodecTheorems.ValidIsEncodable(c, boardZones);
      var encoded, length := CodecMethods.Encode(c, generation, slotBuffers[target]);
      if encoded != RepositoryOk { return encoded; }
      var written := storage.Write(target, slotBuffers[target], length);
      if !written { return StorageError; }
      var committed := storage.Commit();
      if !committed { return StorageError; }
      var readResult, verifiedLength := storage.Read(target, slotBuffers[target]);
      if readResult != RepositoryOk { return StorageError; }
      var decoded, verifiedGeneration := CodecMethods.Decode(slotBuffers[target], verifiedLength, 0, boardZones);
      if decoded.result != RepositoryOk || verifiedGeneration != generation { return Corrupt; }
      return RepositoryOk;
    }

    /** A save is the save of the protocol, on what its reads saw and what its write did. */
    method Save(c: IrrigationConfiguration, boardZones: seq<Zone>) returns (result: RepositoryResult)
      requires Valid()
      modifies storage, slotBuffers[0], slotBuffers[1]
      ensures Valid()
      ensures (storage.Both(), result) == old(SlotStore.Save(storage.Both(), c, boardZones, storage.SaveAt(storage.readCount)))
    {
      hide SlotStore.ReadSlot, Codec.Decode, HeaderGeneration, Blob, Configuration.Valid, SaveResult;
      var valid := Validate(c, boardZones);
      if valid != Ok { return InvalidConfiguration; }
      var a := ReadSlot(0, boardZones);
      var b := ReadSlot(1, boardZones);
      if a.state == SlotStorageError || b.state == SlotStorageError { return StorageError; }
      var generation: u32 :=
        if a.state == SlotValid && a.generation >= b.generation then (a.generation + 1) % 0x1_0000_0000
        else if b.state == SlotValid then (b.generation + 1) % 0x1_0000_0000
        else 1;
      if generation == 0 { return StorageError; }
      var target := if a.state == SlotValid && (b.state != SlotValid || a.generation >= b.generation) then 1 else 0;
      result := WriteAndVerify(target, c, generation, boardZones);
    }
  }
}
