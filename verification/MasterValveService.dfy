/** What each operation of the master valve service does to the plant. */
module MasterOperations {
  import opened Common
  import opened RuntimeStates
  import opened Plants

  /** What no operation on the master valve touches. */
  predicate MasterFrame(p: Plant, q: Plant) {
    && q.store == p.store.(master := q.store.master) && q.store.master.preOpenDelay == p.store.master.preOpenDelay
    && q.relays == p.relays && q.commands == p.commands && q.events == p.events && q.ticks >= p.ticks
  }

  function OpenMaster(env: Environment, p: Plant): (r: (Plant, IrrigationResult))
    ensures MasterFrame(p, r.0)
  {
    if p.store.master.state != MasterClosed && p.store.master.state != MasterFault then (p, InvalidState)
    else
      var (driven, confirmed) := DriveValve(env, p, true);
      if confirmed != Ok then (driven.(store := RecordMasterFault(driven.store)), confirmed)
      else
        var (store, result) := BeginMasterOpen(driven.store, Now(env, driven));
        (Tick(driven).(store := if result == Ok then store else RecordMasterFault(store)), result)
  }

  function ProcessMaster(env: Environment, p: Plant): (r: (Plant, IrrigationResult))
    ensures MasterFrame(p, r.0)
  {
    if p.store.master.state != MasterOpening then (p, Ok)
    else
      var (store, result) := CompletePreOpenDelay(p.store, Now(env, p));
      (Tick(p).(store := store), if result == Timeout then Ok else result)
  }

  function CloseMaster(env: Environment, p: Plant): (r: (Plant, IrrigationResult))
    ensures MasterFrame(p, r.0)
  {
    var (closing, result) := BeginMasterClose(p.store);
    if result != Ok then (p.(store := closing), result)
    else
      var (driven, confirmed) := DriveValve(env, p.(store := closing), false);
      if confirmed != Ok then (driven.(store := RecordMasterFault(driven.store)), confirmed)
      else
        var (store, completed) := CompleteMasterClose(driven.store);
        (driven.(store := if completed == Ok then store else RecordMasterFault(store)), completed)
  }
}

/** The master valve service: a try-lock around the confirmed driver actions. */
module MasterValveServices {
  import opened Bytes
  import opened Common
  import opened RuntimeStates
  import opened Plants
  import opened Boards
  import MasterOperations

  class MasterValveService {
    const board: Board
    var locked: bool

    constructor (board: Board, preOpenDelay: u32)
      modifies board.store
      ensures this.board == board && !locked
      ensures board.store.current == ConfigureMaster(old(board.store.current), preOpenDelay).0
    {
      this.board := board;
      locked := false;
      new;
      var ignored := board.store.ConfigureMaster(preOpenDelay);
    }

    method Open() returns (result: IrrigationResult)
      modifies this, board.store, board.valve, board.clock
      ensures locked == old(locked)
      ensures (board.Plant(), result) ==
        if locked then (old(board.Plant()), Rejected) else MasterOperations.OpenMaster(board.Env(), old(board.Plant()))
    {
      if locked { return Rejected; }
      locked := true;
      var state := board.store.current.master.state;
      if state != MasterClosed && state != MasterFault {
        locked := false;
        return InvalidState;
      }
      result := board.valve.OpenAndConfirm();
      if result == Ok {
        var now := board.clock.NowMs();
        result := board.store.BeginMasterOpen(now);
      }
      if result != Ok { board.store.RecordMasterFault(); }
      locked := false;
    }

    method ProcessTime() returns (result: IrrigationResult)
      modifies this, board.store, board.clock
      ensures locked == old(locked)
      ensures (board.Plant(), result) ==
        if locked then (old(board.Plant()), Rejected) else MasterOperations.ProcessMaster(board.Env(), old(board.Plant()))
    {
      if locked { return Rejected; }
      locked := true;
      result := Ok;
      if board.store.current.master.state == MasterOpening {
        var now := board.clock.NowMs();
        result := board.store.CompletePreOpenDelay(now);
        if result == Timeout { result := Ok; }
      }
      locked := false;
    }

    method Close() returns (result: IrrigationResult)
      modifies this, board.store, board.valve
      ensures locked == old(locked)
      ensures (board.Plant(), result) ==
        if locked then (old(board.Plant()), Rejected) else MasterOperations.CloseMaster(board.Env(), old(board.Plant()))
    {
      if locked { return Rejected; }
      locked := true;
      result := board.store.BeginMasterClose();
      if result != Ok {
        locked := false;
        return;
      }
      result := board.valve.CloseAndConfirm();
      if result == Ok { result := board.store.CompleteMasterClose(); }
      if result != Ok { board.store.RecordMasterFault(); }
      locked := false;
    }
  }
}
