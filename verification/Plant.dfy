/**
 The plant: the store, the relays, and the trace of what the services did. Drivers may fail on any call; the clock is
 read and the drivers are called through an environment that answers the n-th call in any way their contract allows.
 */
module Plants {
  import opened Bytes
  import opened Common
  import opened RuntimeStates

  // ----- Programs and events -----

  datatype Step = Step(zone: Text, duration: u32)

  datatype Program = Program(id: Text, steps: seq<Step>, postDelay: u32)

  datatype Origin = ManualOrigin | ScheduledOrigin

  datatype StartContext = StartContext(origin: Origin, schedule: Option<Text>)

  datatype ExecutionResult = ExecutionCompleted | ExecutionAborted | ExecutionFault | InterruptedByReboot

  datatype ZoneEventKind = Opened | Closed | TimedOut | Faulted

  /** `Started` carries the program itself, of which subscribers see the id. */
  datatype Event =
    | ZoneEvent(time: u64, kind: ZoneEventKind, zone: Text)
    | Started(time: u64, program: Program, planned: u32, context: StartContext)
    | StepStarted(time: u64, step: nat, zone: Text)
    | StepCompleted(time: u64, step: nat, zone: Text)
    | Terminated(time: u64, result: ExecutionResult)

  // ----- Drivers -----

  type Relays = r: seq<bool> | |r| == MAX_OUTPUTS
    witness [false, false, false, false, false, false, false, false]

  datatype Command = Command(output: OutputIndex, on: bool)

  /** A failing set leaves its own output at any level and may only switch other outputs off. */
  datatype SetOutcome = Done | Failed(error: Failure, levels: Relays)

  datatype Environment = Environment(outputs: nat -> SetOutcome, valve: nat -> IrrigationResult, clock: nat -> u64)

  ghost predicate Monotone(env: Environment) {
    forall i, j | 0 <= i <= j :: env.clock(i) <= env.clock(j)
  }

  function Driven(relays: Relays, command: Command, outcome: SetOutcome): (driven: Relays)
    ensures outcome.Done? ==> driven == relays[command.output := command.on]
    ensures outcome.Failed? ==> forall i | 0 <= i < MAX_OUTPUTS && i != command.output :: driven[i] ==> relays[i]
  {
    match outcome
    case Done => relays[command.output := command.on]
    case Failed(_, levels) =>
      seq(MAX_OUTPUTS, i requires 0 <= i < MAX_OUTPUTS => if i == command.output then levels[i] else relays[i] && levels[i])
  }

  /** What is known of the master valve itself: its last confirmed action, or nothing after a failed one. */
  datatype ValvePosition = ValveClosed | ValveOpened | ValveUnknown

  function Moved(open: bool, outcome: IrrigationResult): ValvePosition {
    if outcome != Ok then ValveUnknown else if open then ValveOpened else ValveClosed
  }

  // ----- The plant as a value -----

  datatype Plant = Plant(
    store: RuntimeState,
    relays: Relays,
    commands: seq<Command>,
    valve: ValvePosition,
    valveCalls: nat,
    ticks: nat,
    events: seq<Event>)

  function SetOutput(env: Environment, p: Plant, output: OutputIndex, on: bool): (Plant, IrrigationResult) {
    var outcome := env.outputs(|p.commands|);
    (p.(relays := Driven(p.relays, Command(output, on), outcome), commands := p.commands + [Command(output, on)]),
     if outcome.Done? then Ok else outcome.error)
  }

  /** One action of the master valve: OK only after it is confirmed. */
  function DriveValve(env: Environment, p: Plant, open: bool): (Plant, IrrigationResult) {
    var outcome := env.valve(p.valveCalls);
    (p.(valve := Moved(open, outcome), valveCalls := p.valveCalls + 1), outcome)
  }

  function Now(env: Environment, p: Plant): u64 {
    env.clock(p.ticks)
  }

  function Tick(p: Plant): Plant {
    p.(ticks := p.ticks + 1)
  }

  function PublishZone(env: Environment, p: Plant, kind: ZoneEventKind, zone: Text): Plant {
    p.(events := p.events + [ZoneEvent(Now(env, p), kind, zone)], ticks := p.ticks + 1)
  }

  /** The events about program executions, in order. */
  function ExecutionEvents(events: seq<Event>): seq<Event> {
    if events == [] then []
    else
      var before, last := ExecutionEvents(events[..|events| - 1]), events[|events| - 1];
      if last.ZoneEvent? then before else before + [last]
  }

  lemma ExecutionEventsAppend(events: seq<Event>, event: Event)
    ensures ExecutionEvents(events + [event]) == ExecutionEvents(events) + if event.ZoneEvent? then [] else [event]
  {
    assert (events + [event])[..|events|] == events;
  }
}

/** The objects of the plant, updated in place, and the board that holds them. */
module Boards {
  import opened Bytes
  import opened Common
  import opened RuntimeStates
  import opened StateStores
  import opened Plants

  class OutputDriver {
    const behaviour: nat -> SetOutcome
    var relays: Relays
    var commands: seq<Command>

    constructor (behaviour: nat -> SetOutcome)
      ensures this.behaviour == behaviour && commands == [] && forall i | 0 <= i < MAX_OUTPUTS :: !relays[i]
    {
      this.behaviour := behaviour;
      relays := [false, false, false, false, false, false, false, false];
      commands := [];
    }

    method Set(output: OutputIndex, on: bool) returns (result: IrrigationResult)
      modifies this
      ensures var outcome := behaviour(|old(commands)|);
              && relays == Driven(old(relays), Command(output, on), outcome)
              && commands == old(commands) + [Command(output, on)]
              && result == if outcome.Done? then Ok else outcome.error
    {
      var outcome := behaviour(|commands|);
      relays := Driven(relays, Command(output, on), outcome);
      commands := commands + [Command(output, on)];
      result := if outcome.Done? then Ok else outcome.error;
    }
  }

  class MasterValveDriver {
    const behaviour: nat -> IrrigationResult
    var position: ValvePosition
    var calls: nat

    constructor (behaviour: nat -> IrrigationResult)
      ensures this.behaviour == behaviour && calls == 0 && position == ValveClosed
    {
      this.behaviour := behaviour;
      calls, position := 0, ValveClosed;
    }

    method OpenAndConfirm() returns (result: IrrigationResult)
      modifies this
      ensures calls == old(calls) + 1 && result == behaviour(old(calls)) && position == Moved(true, result)
    {
      result := behaviour(calls);
      calls, position := calls + 1, if result == Ok then ValveOpened else ValveUnknown;
    }

    method CloseAndConfirm() returns (result: IrrigationResult)
      modifies this
      ensures calls == old(calls) + 1 && result == behaviour(old(calls)) && position == Moved(false, result)
    {
      result := behaviour(calls);
      calls, position := calls + 1, if result == Ok then ValveClosed else ValveUnknown;
    }
  }

  class Clock {
    const behaviour: nat -> u64
    var ticks: nat

    constructor (behaviour: nat -> u64)
      ensures this.behaviour == behaviour && ticks == 0
    {
      this.behaviour := behaviour;
      ticks := 0;
    }

    method NowMs() returns (now: u64)
      modifies this
      ensures ticks == old(ticks) + 1 && now == behaviour(old(ticks))
    {
      now := behaviour(ticks);
      ticks := ticks + 1;
    }
  }

  class EventBus {
    var published: seq<Event>

    constructor ()
      ensures published == []
    {
      published := [];
    }

    method Publish(event: Event)
      modifies this
      ensures published == old(published) + [event]
    {
      published := published + [event];
    }
  }

  class Board {
    const store: StateStore
    const outputs: OutputDriver
    const valve: MasterValveDriver
    const clock: Clock
    const bus: EventBus

    constructor (store: StateStore, outputs: OutputDriver, valve: MasterValveDriver, clock: Clock, bus: EventBus)
      ensures this.store == store && this.outputs == outputs && this.valve == valve && this.clock == clock && this.bus == bus
    {
      this.store, this.outputs, this.valve, this.clock, this.bus := store, outputs, valve, clock, bus;
    }

    function Env(): Environment {
      Environment(outputs.behaviour, valve.behaviour, clock.behaviour)
    }

    function Plant(): Plant
      reads store, outputs, valve, clock, bus
    {
      Plants.Plant.Plant(store.current, outputs.relays, outputs.commands, valve.position, valve.calls, clock.ticks, bus.published)
    }
  }
}
