/** Start-up: the objects of the controller, wired together, begin every run in the state that runs start from. */
module SystemReady {
  import opened Bytes
  import opened Common
  import opened RuntimeStates
  import opened StateStores
  import opened Plants
  import opened Boards
  import opened ZoneServices
  import opened MasterValveServices
  import opened ProgramServices
  import opened ProgramOperations
  import opened ServiceRuns
  import opened Histories
  import opened SchedulerServices
  import opened ConfigurationRepository
  import opened ConfigurationManagers
  import opened ConfigurationRuns
  import ManagerOperations
  import ManagerRuns
  import ZoneOperations
  import MasterOperations

  /** Without a safe start of the outputs, or with zones that clash, there is no controller. */
  method Boot(zones: seq<Zone>, preOpenDelay: u32, safeOff: IrrigationResult,
              outputBehaviour: nat -> SetOutcome, valveBehaviour: nat -> IrrigationResult, clockBehaviour: nat -> u64)
    returns (service: ProgramService?)
    ensures service != null <==> safeOff == Ok && ZonesAcceptable(zones)
    ensures service != null ==>
      && fresh(service) && fresh(service.board.store)
      && service.Wired() && Fresh(service.View()) && service.board.Env() == Environment(outputBehaviour, valveBehaviour, clockBehaviour)
      && service.View().plant.store.master.preOpenDelay == preOpenDelay
      && service.View().plant.store.scheduler == Initial().scheduler
  {
    hide Fresh, ZonesAcceptable, InitialZones, FindZone;
    var store := new StateStore();
    if safeOff != Ok { return null; }
    var ready := store.TransitionSystem(Ready);
    var configured := store.ConfigureZones(zones);
    if configured != Ok { return null; }
    var outputs := new OutputDriver(outputBehaviour);
    var valve := new MasterValveDriver(valveBehaviour);
    var clock := new Clock(clockBehaviour);
    var bus := new EventBus();
    var board := new Board(store, outputs, valve, clock, bus);
    var master := new MasterValveService(board, preOpenDelay);
    var zoneService := new ZoneService(board);
    service := new ProgramService(board, zoneService, master);
    FreshAtStart(service.View(), zones);
  }

  lemma FreshAtStart(c: Controller, zones: seq<Zone>)
    requires ZonesAcceptable(zones) && c.plant.store.zones == InitialZones(zones)
    requires var initial := Initial();
             c.plant.store == initial.(system := Ready, zones := c.plant.store.zones, master := c.plant.store.master)
    requires c.plant.store.master.state == MasterClosed && c.plant.valve == ValveClosed
    requires c.plant.events == [] && c.locks == Locks(false, false, false) && forall o: OutputIndex :: !c.plant.relays[o]
    ensures Fresh(c)
  {
    hide ZonesAcceptable, InitialZones;
  }

  /** A call on the objects is a step of a run: what is proved of runs holds of the objects. */
  method Perform(service: ProgramService, call: Call)
    requires service.Wired() && Consistent(service.View()) && service.View().locks == Locks(false, false, false)
    modifies service, service.zones, service.master, service.board.store, service.board.outputs, service.board.valve,
             service.board.clock, service.board.bus
    ensures service.View() == Serve(service.board.Env(), old(service.View()), call)
    ensures Consistent(service.View()) && service.View().locks == Locks(false, false, false)
  {
    hide ZoneOperations.OpenZone, ZoneOperations.CloseZone, ZoneOperations.SafeClose, ZoneOperations.ProcessTimeouts,
         MasterOperations.OpenMaster, MasterOperations.ProcessMaster, MasterOperations.CloseMaster,
         StartProgram, ProcessProgram, AbortProgram, Consistent;
    var ignored;
    ServeFrames(service.board.Env(), service.View(), call);
    match call {
      case OpenZoneCall(zone, duration) => ignored := service.zones.Open(zone, duration);
      case CloseZoneCall(zone) => ignored := service.zones.Close(zone);
      case SafeCloseCall => ignored := service.zones.SafeClose();
      case ProcessTimeoutsCall => ignored := service.zones.ProcessTimeouts();
      case OpenMasterCall => ignored := service.master.Open();
      case ProcessMasterCall => ignored := service.master.ProcessTime();
      case CloseMasterCall => ignored := service.master.Close();
      case StartCall(program, context) => ignored := service.Start(program, context);
      case ProcessCall => ignored := service.Process();
      case AbortCall => ignored := service.Abort();
    }
  }

  /** Everything proved of runs holds of the objects after any calls. */
  method PerformAll(service: ProgramService, calls: seq<Call>)
    requires service.Wired() && Fresh(service.View()) && Consistent(service.View())
    modifies service, service.zones, service.master, service.board.store, service.board.outputs, service.board.valve,
             service.board.clock, service.board.bus
    ensures service.View() == Run(service.board.Env(), old(service.View()), calls)
  {
    hide Serve, Consistent;
    for index := 0 to |calls|
      invariant Consistent(service.View()) && service.View().locks == Locks(false, false, false)
      invariant service.View() == Run(service.board.Env(), old(service.View()), calls[..index])
    {
      Perform(service, calls[index]);
      assert calls[..index + 1][..index] == calls[..index];
    }
    assert calls[..|calls|] == calls;
  }

  /** The defaults, then what storage holds. `opens` says whether the storage partition could be opened. */
  method LoadConfiguration(d: Device, repository: Repository, opens: bool) returns (manager: ConfigurationManager)
    requires DeviceValid(d) && repository.Valid()
    modifies repository.storage, repository.slotBuffers[0], repository.slotBuffers[1]
    ensures repository.Valid() && fresh(manager) && fresh(manager.Slots())
    ensures manager.Valid() && manager.boardZones == d.boardZones && manager.persistenceRequired && manager.scheduler == null
    ensures manager.repository == null || manager.repository == repository
    ensures (manager.State(), repository.storage.Both(), manager.repository != null) ==
            Loading(d, old(repository.storage.Both()), opens, old(ConfigurationManager.BootOf(repository.storage)))
  {
    hide Configuration.Valid, RuntimeViews.Rebuild, ManagerOperations.LoadOrPersist;
    assert |d.defaults.schedules| <= MAX_SCHEDULES by { ValidSizes(d.defaults, d.boardZones); }
    manager := new ConfigurationManager(d.boardZones, d.defaults);
    if opens {
      var answer := manager.LoadOrPersistDefaults(repository);
      manager.SetRepository(if answer == ManagerOperations.BootStorageError then null else repository, true);
    } else {
      manager.SetRepository(null, true);
    }
  }

  /** Then the scheduler: the objects begin in the world that the lives of a configuration begin in. */
  method StartConfiguration(service: ProgramService, d: Device, repository: Repository, opens: bool)
    returns (manager: ConfigurationManager, running: bool)
    requires service.Wired() && service.board.store.current.scheduler == Initial().scheduler
    requires DeviceValid(d) && repository.Valid()
    modifies service.board.store, repository.storage, repository.slotBuffers[0], repository.slotBuffers[1]
    ensures repository.Valid() && manager.Valid() && manager.boardZones == d.boardZones && manager.persistenceRequired
    ensures manager.repository == null || manager.repository == repository
    ensures service.board.store.current == old(service.board.store.current).(scheduler := service.board.store.current.scheduler)
    ensures World(manager.State(), repository.storage.Both(), manager.repository != null, running) ==
            StartUp(d, old(repository.storage.Both()), opens, old(ConfigurationManager.BootOf(repository.storage)))
  {
    hide Loading, ManagerOperations.JoinScheduler, Configuration.Valid, RefsInRange, RuntimeViews.Shape, Fresh, Resolve;
    manager := LoadConfiguration(d, repository, opens);
    var scheduler := new SchedulerService(service, manager.scheduleIds, manager.programs);
    running := manager.JoinScheduler(scheduler);
  }

  /** The occurrences of the scheduler are no part of what a fresh controller is. */
  lemma FreshStays(c: Controller, d: Controller)
    requires Fresh(c) && d == WithStore(c, c.plant.store.(scheduler := d.plant.store.scheduler))
    ensures Fresh(d)
  {
    hide ZonesAcceptable, InitialZones;
  }

  /**
   The whole start-up. The controller comes up exactly when its outputs started safely, the compiled defaults are valid, the zones of
   the board do not clash, and the scheduler takes the entries of the configuration. It then begins every kind of run where it should:
   the services fresh, the configuration as loaded, and the history empty.
   */
  method AppMain(d: Device, preOpenDelay: u32, safeOff: IrrigationResult, repository: Repository, opens: bool,
                 outputBehaviour: nat -> SetOutcome, valveBehaviour: nat -> IrrigationResult, clockBehaviour: nat -> u64)
    returns (service: ProgramService?, manager: ConfigurationManager?, history: ProgramExecutionHistory?)
    requires repository.Valid()
    modifies repository.storage, repository.slotBuffers[0], repository.slotBuffers[1]
    ensures var boot := old(ConfigurationManager.BootOf(repository.storage)); var slots := old(repository.storage.Both());
            && (service != null <==>
                && safeOff == Ok && DeviceValid(d) && ZonesAcceptable(d.boardZones) && StartUp(d, slots, opens, boot).running)
            && (service != null ==>
                && manager != null && history != null && history.Valid() && history.View() == EMPTY
                && service.Wired() && Fresh(service.View())
                && service.board.Env() == Environment(outputBehaviour, valveBehaviour, clockBehaviour)
                && repository.Valid() && manager.Valid()
                && World(manager.State(), repository.storage.Both(), manager.repository != null, true) == StartUp(d, slots, opens, boot))
  {
    hide Configuration.Valid, StartUp, ZonesAcceptable, Fresh, RefsInRange, RuntimeViews.Shape, Resolve;
    manager, history := null, null;
    var valid := Configuration.Validate(d.defaults, d.boardZones);
    if valid != Ok { return null, null, null; }
    service := Boot(d.boardZones, preOpenDelay, safeOff, outputBehaviour, valveBehaviour, clockBehaviour);
    if service == null { return; }
    history := new ProgramExecutionHistory(None);
    ghost var before := service.View();
    var running;
    manager, running := StartConfiguration(service, d, repository, opens);
    FreshStays(before, service.View());
    if !running { return null, null, null; }
  }

  /** A mutation of the manager is a step of a life of the configuration: what is proved of lives holds of the object. */
  method Change(manager: ConfigurationManager, mutation: ManagerRuns.Mutation) returns (result: IrrigationResult)
    requires manager.Valid()
    modifies manager, manager.Slots(), manager.SchedulerParts(), manager.RepositoryParts()
    ensures manager.Valid()
    ensures (manager.State(), manager.GetBacking(), result) ==
            ManagerRuns.Mutate(old(manager.State()), old(manager.GetBacking()), mutation, manager.boardZones, old(manager.NextSave()))
  {
    hide ManagerRuns.Mutate;
    match mutation {
      case RenameZone(zone, name) => result := manager.RenameZone(zone, name);
      case CreateProgram(name, steps) => result := manager.CreateProgram(name, steps);
      case UpdateProgram(index, name, steps) => result := manager.UpdateProgram(index, name, steps);
      case DeleteProgram(index) => result := manager.DeleteProgram(index);
      case CreateSchedule(weekdayMask, hour, minute, program, leftover) =>
        result := manager.CreateSchedule(weekdayMask, hour, minute, program, leftover);
      case UpdateSchedule(index, weekdayMask, hour, minute, program) =>
        result := manager.UpdateSchedule(index, weekdayMask, hour, minute, program);
      case DeleteSchedule(index) => result := manager.DeleteSchedule(index);
      case EnableSchedule(index, enabled) => result := manager.EnableSchedule(index, enabled);
    }
  }
}
