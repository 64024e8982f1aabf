/** The schedules that can take a household below its reserve when storage holds nothing but what the run
    itself delivers: fewer than those that can do it on some database. */
module FreshStart {
  import opened Basics
  import opened Observations
  import opened LatestState
  import opened Health
  import opened ControlPolicy
  import opened Storage
  import opened Integrity
  import opened Runtime
  import opened Safety
  import opened Progress
  import opened Replay
  import opened Battery
  import opened Faults
  import opened Simulator
  import opened ClosedLoop
  import opened Openings
  import opened OpenLoop

  // ---------------------------------------------------------------------------------------------
  // What a schedule delivers, step by step

  /** The step delivers an event that storage can take. */
  predicate DeliversEvent(cfg: Config, step: int) {
    var fault := FaultAt(cfg.faults, step);
    if fault.None? then InstantOf(cfg, step) != 0
    else
      match fault.value.kind
      case DelayFault => InstantOf(cfg, step) != 0 && HandsOver(cfg, step)
      case DuplicateFault => step >= 2 && InstantOf(cfg, step) != 0 && InstantOf(cfg, step - 1) != 0
      case OutOfOrderFault => RedatedName(cfg, step).Some?
      case _ => false
  }

  function DeliveredName(cfg: Config, nature: Nature, step: int): string
    requires DeliversEvent(cfg, step)
  {
    var fault := FaultAt(cfg.faults, step);
    if fault.Some? && fault.value.kind.DuplicateFault? then NameOf(cfg, nature, step - 1)
    else if fault.Some? && fault.value.kind.OutOfOrderFault? then RedatedName(cfg, step).value
    else NameOf(cfg, nature, step)
  }

  /** The time of the event a step delivers. */
  function EventTime(cfg: Config, step: int): int {
    var fault := FaultAt(cfg.faults, step);
    if fault.Some? && fault.value.kind.DuplicateFault? then InstantOf(cfg, step - 1)
    else if fault.Some? && fault.value.kind.OutOfOrderFault? then
      InstantOf(cfg, step) + fault.value.eventTimeOffset
    else InstantOf(cfg, step)
  }

  /** No earlier step delivers that event. */
  predicate Fresh(cfg: Config, step: int) {
    var fault := FaultAt(cfg.faults, step);
    && DeliversEvent(cfg, step)
    && (fault.Some? && fault.value.kind.DuplicateFault? ==> !HandsOver(cfg, step - 1))
    && (fault.Some? && fault.value.kind.OutOfOrderFault? ==> !NamedBefore(cfg, step))
  }

  /** The largest event time delivered so far. */
  function Newest(cfg: Config, step: nat): Option<int> {
    if step == 0 then None
    else
      var before := Newest(cfg, step - 1);
      if Fresh(cfg, step) && (before.None? || EventTime(cfg, step) > before.value) then Some(EventTime(cfg, step))
      else before
  }

  /** The step delivers an event that is newer than all before. */
  predicate Moves(cfg: Config, step: int)
    requires step >= 1
  {
    Fresh(cfg, step) && (Newest(cfg, step - 1).None? || EventTime(cfg, step) > Newest(cfg, step - 1).value)
  }

  /** A redelivery right after a step whose newer event may leave its sample stale. */
  predicate OpensFresh(cfg: Config, step: int) {
    Opens(cfg, step) && step >= 2 && Moves(cfg, step - 1)
  }

  function Names(cfg: Config, nature: Nature, last: int): set<string> {
    set j | 1 <= j <= last && DeliversEvent(cfg, j) :: DeliveredName(cfg, nature, j)
  }

  lemma DistinctNames(cfg: Config, nature: Nature, i: int, j: int)
    requires cfg.interval > 0 && nature.NamesApart() && i != j
    ensures NameOf(cfg, nature, i) != NameOf(cfg, nature, j)
  {
    if i < j {
      InstantsDiffer(cfg, i, j);
    } else {
      InstantsDiffer(cfg, j, i);
    }
    hide InstantOf;
  }

  lemma RedatedIsScheduled(cfg: Config, step: int)
    requires RedatedName(cfg, step).Some?
    ensures RedatedName(cfg, step).value in RedatedNames(cfg)
  {
    FaultAtFinds(cfg.faults, step);
    assert FaultAt(cfg.faults, step).value in cfg.faults;
    hide FaultAt, InstantOf, Padded;
  }

  /** What two steps deliver under one name. */
  lemma SameName(cfg: Config, nature: Nature, j: int, k: int)
    requires cfg.interval > 0 && nature.NamesApart() && Avoids(nature, cfg)
    requires j < k && DeliversEvent(cfg, j) && DeliversEvent(cfg, k)
    ensures DeliveredName(cfg, nature, j) == DeliveredName(cfg, nature, k) <==>
            var fault := FaultAt(cfg.faults, k);
            && fault.Some?
            && ((fault.value.kind.DuplicateFault? && j == k - 1 && HandsOver(cfg, j))
                || (fault.value.kind.OutOfOrderFault? && RedatedName(cfg, j) == RedatedName(cfg, k)))
  {
    var one, two := FaultAt(cfg.faults, j), FaultAt(cfg.faults, k);
    hide FaultAt, InstantOf, RedatedNames;
    DistinctNames(cfg, nature, j, k);
    DistinctNames(cfg, nature, j - 1, k);
    DistinctNames(cfg, nature, j - 1, k - 1);
    if j != k - 1 {
      DistinctNames(cfg, nature, j, k - 1);
    }
    if RedatedName(cfg, j).Some? {
      RedatedIsScheduled(cfg, j);
    }
    if RedatedName(cfg, k).Some? {
      RedatedIsScheduled(cfg, k);
    }
    hide RedatedName;
  }

  lemma FreshIsNew(cfg: Config, nature: Nature, step: int)
    requires cfg.interval > 0 && nature.NamesApart() && Avoids(nature, cfg)
    requires step >= 1 && DeliversEvent(cfg, step)
    ensures Fresh(cfg, step) <==> DeliveredName(cfg, nature, step) !in Names(cfg, nature, step - 1)
  {
    var name := DeliveredName(cfg, nature, step);
    var fault := FaultAt(cfg.faults, step);
    hide FaultAt, InstantOf;
    if fault.Some? && fault.value.kind.DuplicateFault? && HandsOver(cfg, step - 1) {
      assert DeliversEvent(cfg, step - 1) && DeliveredName(cfg, nature, step - 1) == name;
    }
    if fault.Some? && fault.value.kind.OutOfOrderFault? && NamedBefore(cfg, step) {
      var j :| 1 <= j < step && RedatedName(cfg, j) == RedatedName(cfg, step);
      assert DeliversEvent(cfg, j) && DeliveredName(cfg, nature, j) == name;
    }
    hide RedatedName, HandsOver;
    if name in Names(cfg, nature, step - 1) {
      var j :| 1 <= j <= step - 1 && DeliversEvent(cfg, j) && DeliveredName(cfg, nature, j) == name;
      SameName(cfg, nature, j, step);
    }
  }

  // ---------------------------------------------------------------------------------------------
  // What a run from the empty database knows

  /** The latest state is that of the newest delivered event. */
  predicate Remembers(newest: Option<int>, state: State) {
    match newest
    case None => state == ZERO_STATE
    case Some(t) => state.updatedAt == Time(t, true) && t != 0
  }

  /** Storage holds what the run has delivered, and nothing else. */
  predicate Own(agent: Agent, cfg: Config, nature: Nature, plant: Plant) {
    && PlantSound(agent, cfg, nature, plant)
    && plant.db.telemetry.Keys == Names(cfg, nature, plant.sim.step)
    && Remembers(Newest(cfg, plant.sim.step), plant.memory.state)
  }

  lemma OwnMeans(agent: Agent, cfg: Config, nature: Nature, plant: Plant)
    requires Own(agent, cfg, nature, plant)
    ensures PlantSound(agent, cfg, nature, plant)
    ensures Poised(cfg, nature, plant.sim) && Intact(plant.db) && Refines(plant.memory, plant.db, agent.deviceID)
    ensures forall name :: name in plant.db.telemetry <==> name in Names(cfg, nature, plant.sim.step)
    ensures Remembers(Newest(cfg, plant.sim.step), plant.memory.state)
  {
    hide Poised, Intact, Refines, Names, Newest, Remembers;
  }

  /** The next step's event, seen from the schedule. */
  lemma HandedOwn(cfg: Config, nature: Nature, s: SimState)
    requires cfg.Valid() && nature.Lawful() && Poised(cfg, nature, s)
    ensures var k := s.step + 1;
            var event := EventOf(HandedEnvelope(cfg, nature, s));
            && (event.Some? <==> DeliversEvent(cfg, k))
            && (event.Some? ==>
                  && event.value.eventID == DeliveredName(cfg, nature, k)
                  && event.value.eventTime == Time(EventTime(cfg, k), true)
                  && EventTime(cfg, k) != 0)
  {
    HandedEvent(cfg, nature, s);
    hide EventOf, HandedEnvelope, Advanced, FaultAt, InstantOf, Config.Valid, Nature.Lawful, Poised, Padded;
  }

  /** Whether the event is new to storage and newer than the state is decided by the schedule alone. */
  lemma OwnEvent(agent: Agent, cfg: Config, nature: Nature, plant: Plant)
    requires cfg.Valid() && nature.Lawful() && nature.NamesApart() && Avoids(nature, cfg)
    requires Own(agent, cfg, nature, plant)
    ensures var k := plant.sim.step + 1;
            var event := EventOf(HandedEnvelope(cfg, nature, plant.sim));
            && (event.Some? ==> (event.value.eventID !in plant.db.telemetry <==> Fresh(cfg, k)))
            && (event.Some? && event.value.eventID !in plant.db.telemetry && Supersedes(event.value, plant.memory.state)
                <==> Moves(cfg, k))
  {
    hide *;
    var k := plant.sim.step + 1;
    OwnMeans(agent, cfg, nature, plant);
    HandedOwn(cfg, nature, plant.sim);
    MovesMeans(cfg, k, plant.memory.state);
    if DeliversEvent(cfg, k) {
      PositiveInterval(cfg);
      FreshIsNew(cfg, nature, k);
      SupersedesByTime(EventOf(HandedEnvelope(cfg, nature, plant.sim)).value, plant.memory.state);
    }
  }

  lemma MovesMeans(cfg: Config, step: int, state: State)
    requires step >= 1 && Remembers(Newest(cfg, step - 1), state)
    ensures Fresh(cfg, step) ==> DeliversEvent(cfg, step)
    ensures Moves(cfg, step) <==>
            Fresh(cfg, step) && (state.updatedAt.IsZero() || EventTime(cfg, step) > state.updatedAt.ns)
    ensures Newest(cfg, step) == if Moves(cfg, step) then Some(EventTime(cfg, step)) else Newest(cfg, step - 1)
  {
    hide DeliversEvent, EventTime, FaultAt, HandsOver, NamedBefore;
  }

  lemma SupersedesByTime(event: Telemetry, state: State)
    ensures Supersedes(event, state) <==> state.updatedAt.IsZero() || event.eventTime.ns > state.updatedAt.ns
    ensures StateOf(event).updatedAt == event.eventTime
  {
  }

  /** Every interval that goes on keeps this. */
  lemma StaysOwn(agent: Agent, hp: HealthPolicy, cfg: Config, nature: Nature, plant: Plant, tick: Tick)
    requires cfg.Valid() && nature.Lawful() && nature.NamesApart() && Avoids(nature, cfg) && Wired(agent, cfg)
    requires Own(agent, cfg, nature, plant)
    ensures agent.policy.Valid()
    ensures var e := PlantInterval(agent, hp, cfg, nature, plant, tick);
            e.ending.Running? ==> Own(agent, cfg, nature, e.plant) && e.plant.sim.step == plant.sim.step + 1
  {
    hide *;
    PolicyIsValid(agent, cfg);
    OwnMeans(agent, cfg, nature, plant);
    var envelope := HandedEnvelope(cfg, nature, plant.sim);
    var step := Step(envelope, tick.now, tick.fate);
    var e := Interval(agent, hp, plant.memory, plant.db, step);
    var after := PlantInterval(agent, hp, cfg, nature, plant, tick);
    PlantAdvances(agent, hp, cfg, nature, plant, tick);
    AdvancesMeans(agent, hp, cfg, nature, plant, tick, envelope);
    PlantStaysSound(agent, hp, cfg, nature, plant, tick);
    if after.ending.Running? {
      var k := plant.sim.step + 1;
      IntervalStaysSafe(agent, hp, plant.memory, plant.db, step);
      IntervalAbsorbs(agent, hp, plant.memory, plant.db, step);
      HandedOwn(cfg, nature, plant.sim);
      OwnEvent(agent, cfg, nature, plant);
      MovesMeans(cfg, k, plant.memory.state);
      NextNames(cfg, nature, k);
      RowIsRemembered(agent.deviceID, plant.memory, plant.db);
      RowIsRemembered(agent.deviceID, e.memory, e.db);
      ViewNames(plant.db, agent.deviceID);
      ViewNames(e.db, agent.deviceID);
      AbsorbedOwn(EventOf(envelope), ViewOf(plant.db, agent.deviceID), ViewOf(e.db, agent.deviceID));
      if EventOf(envelope).Some? {
        SupersedesByTime(EventOf(envelope).value, plant.memory.state);
      }
      RememberedNext(cfg, k, plant.memory.state, e.memory.state);
      OwnFrom(agent, cfg, nature, after.plant);
    }
  }

  lemma NextNames(cfg: Config, nature: Nature, step: int)
    requires step >= 1
    ensures forall name :: name in Names(cfg, nature, step) <==>
              name in Names(cfg, nature, step - 1)
              || (DeliversEvent(cfg, step) && name == DeliveredName(cfg, nature, step))
  {
    hide DeliversEvent, DeliveredName;
  }

  lemma RowIsRemembered(deviceID: string, memory: Memory, db: Database)
    requires Intact(db) && Refines(memory, db, deviceID)
    ensures var row := ViewOf(db, deviceID).row;
            && (row.None? ==> memory.state == ZERO_STATE)
            && (row.Some? ==> memory.state == row.value && !memory.state.updatedAt.IsZero())
    ensures ZERO_STATE.updatedAt.IsZero()
  {
    RestoredShape(db, deviceID);
    hide Intact, RestoredMemory;
  }

  /** One event absorbed: the row is the newer of the two. */
  lemma AbsorbedOwn(event: Option<Telemetry>, before: View, after: View)
    requires after == match event case None => before case Some(e) => Absorb(before, e)
    ensures event.None? || event.value.eventID in before.events ==> after == before
    ensures event.Some? && event.value.eventID !in before.events ==>
              && (forall name :: name in after.events <==> name in before.events || name == event.value.eventID)
              && after.row ==
                 if before.row.None? || event.value.eventTime.ns > before.row.value.updatedAt.ns
                 then Some(StateOf(event.value)) else before.row
  {
  }

  lemma RememberedNext(cfg: Config, step: int, before: State, after: State)
    requires step >= 1 && Remembers(Newest(cfg, step - 1), before)
    requires Moves(cfg, step) ==> after.updatedAt == Time(EventTime(cfg, step), true) && EventTime(cfg, step) != 0
    requires !Moves(cfg, step) ==> after == before
    ensures Remembers(Newest(cfg, step), after)
  {
    hide Fresh, EventTime;
  }

  lemma OwnFrom(agent: Agent, cfg: Config, nature: Nature, plant: Plant)
    requires PlantSound(agent, cfg, nature, plant)
    requires forall name :: name in plant.db.telemetry <==> name in Names(cfg, nature, plant.sim.step)
    requires Remembers(Newest(cfg, plant.sim.step), plant.memory.state)
    ensures Own(agent, cfg, nature, plant)
  {
    hide PlantSound, Names, Newest, Remembers;
  }

  // ---------------------------------------------------------------------------------------------
  // On the other schedules the loop stays closed

  ghost predicate SafeFromEmpty(cfg: Config) {
    forall step :: !OpensFresh(cfg, step)
  }

  /** The battery has moved since the last sample only if the step's event was newer than all before. */
  predicate MovedByNewer(cfg: Config, s: SimState) {
    s.step > 0 && s.prior.batterySOCPercent != s.batterySOCPercent ==> Moves(cfg, s.step)
  }

  /** What a run from the empty database keeps. */
  predicate Accountable(agent: Agent, cfg: Config, nature: Nature, plant: Plant) {
    && Own(agent, cfg, nature, plant)
    && PriorKnown(cfg, plant.sim, plant.db)
    && MovedByNewer(cfg, plant.sim)
  }

  lemma AccountableParts(agent: Agent, cfg: Config, nature: Nature, plant: Plant)
    requires Accountable(agent, cfg, nature, plant)
    ensures Own(agent, cfg, nature, plant) && PriorKnown(cfg, plant.sim, plant.db) && MovedByNewer(cfg, plant.sim)
    ensures PlantSound(agent, cfg, nature, plant)
    ensures Poised(cfg, nature, plant.sim) && Intact(plant.db) && Refines(plant.memory, plant.db, agent.deviceID)
  {
    OwnMeans(agent, cfg, nature, plant);
    hide Own, PriorKnown, MovedByNewer, PlantSound, Poised, Intact, Refines;
  }

  lemma AccountableFrom(agent: Agent, cfg: Config, nature: Nature, plant: Plant)
    requires Own(agent, cfg, nature, plant) && PriorKnown(cfg, plant.sim, plant.db)
    requires plant.sim.step > 0 && plant.sim.prior.batterySOCPercent != plant.sim.batterySOCPercent ==>
               Moves(cfg, plant.sim.step)
    ensures Accountable(agent, cfg, nature, plant)
  {
    hide Own, PriorKnown, Moves;
  }

  lemma StaysAccountable(agent: Agent, hp: HealthPolicy, cfg: Config, nature: Nature, plant: Plant, tick: Tick)
    requires cfg.Valid() && nature.Lawful() && nature.NamesApart() && Avoids(nature, cfg) && Wired(agent, cfg)
    requires Accountable(agent, cfg, nature, plant)
    ensures agent.policy.Valid()
    ensures var e := PlantInterval(agent, hp, cfg, nature, plant, tick);
            e.ending.Running? ==> Accountable(agent, cfg, nature, e.plant) && e.plant.sim.step == plant.sim.step + 1
  {
    hide *;
    PolicyIsValid(agent, cfg);
    AccountableParts(agent, cfg, nature, plant);
    var envelope := HandedEnvelope(cfg, nature, plant.sim);
    var step := Step(envelope, tick.now, tick.fate);
    var after := PlantInterval(agent, hp, cfg, nature, plant, tick);
    HandsOut(cfg, nature, plant.sim);
    IntervalDispatch(agent, hp, plant.memory, plant.db, step);
    SinkRefusal(agent, hp, plant.memory, plant.db, step);
    PlantAdvances(agent, hp, cfg, nature, plant, tick);
    AdvancesMeans(agent, hp, cfg, nature, plant, tick, envelope);
    OwnEvent(agent, cfg, nature, plant);
    StaysOwn(agent, hp, cfg, nature, plant, tick);
    PriorStaysKnown(agent, hp, cfg, nature, plant, tick);
    if after.ending.Running? {
      AccountableFrom(agent, cfg, nature, after.plant);
    }
  }

  /** Where the schedule does not open afresh, no stale charge is redelivered. */
  lemma NothingStale(agent: Agent, cfg: Config, nature: Nature, plant: Plant)
    requires cfg.Valid() && nature.Lawful() && Accountable(agent, cfg, nature, plant)
    requires !OpensFresh(cfg, plant.sim.step + 1)
    ensures !RedeliversStaleCharge(cfg, plant)
  {
    hide *;
    AccountableParts(agent, cfg, nature, plant);
    HandsOut(cfg, nature, plant.sim);
    PriorInstant(cfg, nature, plant.sim);
    if RedeliversStaleCharge(cfg, plant) {
      StaleThen(cfg, plant);
    }
  }

  lemma StaleThen(cfg: Config, plant: Plant)
    requires RedeliversStaleCharge(cfg, plant)
    requires var fault := FaultAt(cfg.faults, plant.sim.step + 1);
             fault.Some? && fault.value.kind.DuplicateFault? ==> plant.sim.step > 0
    requires PriorKnown(cfg, plant.sim, plant.db) && MovedByNewer(cfg, plant.sim)
    requires plant.sim.step > 0 ==> plant.sim.prior.eventTime == Time(InstantOf(cfg, plant.sim.step), true)
    ensures OpensFresh(cfg, plant.sim.step + 1)
  {
    hide FaultAt, InstantOf, Moves, LeavesSampleStale, HandsOver, RedatedKnown, Supersedes;
  }

  lemma PriorInstant(cfg: Config, nature: Nature, s: SimState)
    requires Poised(cfg, nature, s)
    ensures s.step > 0 ==> s.prior.eventTime == Time(InstantOf(cfg, s.step), true)
  {
    hide InstantOf, SoundSample;
  }

  lemma {:induction false} FreshLoopStaysClosed(
    agent: Agent, hp: HealthPolicy, cfg: Config, nature: Nature, plant: Plant, ticks: seq<Tick>, floor: real)
    requires cfg.Valid() && nature.Lawful() && nature.NamesApart() && Avoids(nature, cfg) && Wired(agent, cfg)
    requires SafeFromEmpty(cfg) && Accountable(agent, cfg, nature, plant)
    ensures agent.policy.Valid() && cfg.batteryCapacityKWh > 0.0
    ensures !EverOpens(agent, hp, cfg, nature, plant, ticks)
    ensures !EverSinks(agent, hp, cfg, nature, plant, ticks, floor)
    decreases |ticks|
  {
    hide *;
    PolicyIsValid(agent, cfg);
    if ticks == [] {
      NeverBreaks(agent, hp, cfg, nature, plant, floor);
    } else {
      var first := PlantInterval(agent, hp, cfg, nature, plant, ticks[0]);
      EverOpensUnfolds(agent, hp, cfg, nature, plant, ticks);
      EverSinksUnfolds(agent, hp, cfg, nature, plant, ticks, floor);
      NoFreshOpening(cfg, plant.sim.step + 1);
      NothingStale(agent, cfg, nature, plant);
      StaleMeans(agent, cfg, plant, ticks[0], None);
      StaysAccountable(agent, hp, cfg, nature, plant, ticks[0]);
      if first.ending.Running? {
        FreshLoopStaysClosed(agent, hp, cfg, nature, first.plant, ticks[1..], floor);
      }
    }
  }

  lemma NoFreshOpening(cfg: Config, step: int)
    requires SafeFromEmpty(cfg)
    ensures !OpensFresh(cfg, step)
  {
    hide OpensFresh;
  }

  lemma StartsAccountable(agent: Agent, cfg: Config, nature: Nature)
    requires cfg.Valid() && nature.Lawful() && Wired(agent, cfg)
    ensures Restored(cfg, EMPTY_DATABASE) == cfg
    ensures Accountable(agent, cfg, nature, StartedPlant(cfg, nature, EMPTY_DATABASE))
    ensures StartedPlant(cfg, nature, EMPTY_DATABASE).sim.step == 0
    ensures StartedPlant(cfg, nature, EMPTY_DATABASE).sim.batterySOCPercent == cfg.startingBatterySOCPercent
  {
    hide *;
    EmptyStart(cfg.deviceID);
    EmptyMemory(cfg.deviceID);
    EmptyRestoresSame(cfg);
    StartedPlantIsSound(agent, cfg, nature, EMPTY_DATABASE);
    var plant := StartedPlant(cfg, nature, EMPTY_DATABASE);
    StartedParts(cfg, nature);
    NothingDelivered(cfg, nature);
    OwnFrom(agent, cfg, nature, plant);
    AccountableFrom(agent, cfg, nature, plant);
  }

  lemma EmptyRestoresSame(cfg: Config)
    ensures Restored(cfg, EMPTY_DATABASE) == cfg
  {
  }

  lemma StartedParts(cfg: Config, nature: Nature)
    ensures var plant := StartedPlant(cfg, nature, EMPTY_DATABASE);
            plant.db == EMPTY_DATABASE && plant.memory == RestoredMemory(EMPTY_DATABASE, cfg.deviceID)
  {
    hide Initial, Restored, RestoredMemory;
  }

  lemma NothingDelivered(cfg: Config, nature: Nature)
    ensures Names(cfg, nature, 0) == {} && Newest(cfg, 0).None? && Remembers(None, ZERO_STATE)
  {
  }

  /** Reserve floor from the empty database, on more schedules than from any: those on which no redelivery
      follows a step whose event is newer than all before and leaves its sample stale. */
  lemma ReserveFloorFromEmpty(agent: Agent, hp: HealthPolicy, cfg: Config, nature: Nature, ticks: seq<Tick>)
    requires SafeFromEmpty(cfg) && nature.NamesApart() && Avoids(nature, cfg)
    ensures KeepsReserve(agent, hp, cfg, nature, EMPTY_DATABASE, ticks)
  {
    if cfg.Valid() && nature.Lawful() && Wired(agent, cfg) {
      hide *;
      var plant := StartedPlant(cfg, nature, EMPTY_DATABASE);
      var floor := Min(plant.sim.batterySOCPercent, MINIMUM_DISCHARGE_SOC_PERCENT);
      EmptyStart(cfg.deviceID);
      StartsAccountable(agent, cfg, nature);
      FreshLoopStaysClosed(agent, hp, cfg, nature, plant, ticks, floor);
      RunBreaksExactly(agent, hp, cfg, nature, EMPTY_DATABASE, ticks);
      ReserveKept(agent, hp, cfg, nature, EMPTY_DATABASE, ticks);
    }
  }

  lemma ReserveKept(agent: Agent, hp: HealthPolicy, cfg: Config, nature: Nature, db: Database, ticks: seq<Tick>)
    requires agent.policy.Valid() && Restored(cfg, db).batteryCapacityKWh > 0.0
    requires var plant := StartedPlant(cfg, nature, db);
             !AnyBelow(PlantLoop(agent, hp, Restored(cfg, db), nature, plant, ticks).applied,
                       Min(plant.sim.batterySOCPercent, MINIMUM_DISCHARGE_SOC_PERCENT))
    ensures KeepsReserve(agent, hp, cfg, nature, db, ticks)
  {
    hide PlantLoop, StartedPlant, Restored, AnyBelow, Intact, Config.Valid, Nature.Lawful, Wired, Min;
  }

  // ---------------------------------------------------------------------------------------------
  // The steps that run a command

  /** How old the step's event is when it arrives. */
  function Age(cfg: Config, step: int): int {
    var fault := FaultAt(cfg.faults, step);
    if fault.None? then 0
    else
      match fault.value.kind
      case DelayFault => fault.value.delay
      case DuplicateFault => cfg.interval
      case OutOfOrderFault => -fault.value.eventTimeOffset
      case _ => 0
  }

  /** From the empty database, whether a step runs a command is decided by the schedule alone. */
  predicate Commands(cfg: Config, step: int)
    requires step >= 1
  {
    Moves(cfg, step) && Age(cfg, step) <= cfg.interval
  }

  function Count(cfg: Config, step: nat): nat {
    if step == 0 then 0 else Count(cfg, step - 1) + if Commands(cfg, step) then 1 else 0
  }

  lemma CountsUp(cfg: Config, i: nat, j: nat)
    requires i <= j
    ensures Count(cfg, i) <= Count(cfg, j)
    decreases j
  {
    if i < j {
      CountsUp(cfg, i, j - 1);
    }
    hide Commands;
  }

  lemma HandedAge(agent: Agent, cfg: Config, nature: Nature, s: SimState)
    requires cfg.Valid() && nature.Lawful() && Poised(cfg, nature, s) && Wired(agent, cfg)
    ensures var envelope := HandedEnvelope(cfg, nature, s);
            EventOf(envelope).Some? ==> (Late(agent, envelope) <==> Age(cfg, s.step + 1) > cfg.interval)
  {
    var envelope := HandedEnvelope(cfg, nature, s);
    HandedEvent(cfg, nature, s);
    HandsOut(cfg, nature, s);
    InstantsAdvance(cfg, s.step);
    if EventOf(envelope).Some? {
      ReceivedAfter(cfg, Advanced(cfg, nature, s), FaultAt(cfg.faults, s.step + 1));
      LateByAge(agent, cfg, envelope, Age(cfg, s.step + 1));
    }
    hide EventOf, DeliveredEnvelope, Advanced, FaultAt, SoundSample, InstantOf, ScheduleValid, Nature.Lawful,
      SoundFactors, Blank, Padded, Late, RedatedName, HandsOver;
  }

  lemma ReceivedAfter(cfg: Config, s: SimState, fault: Option<Fault>)
    ensures fault.None? ==> DeliveredEnvelope(cfg, s, fault).value.receivedAt == s.pending.eventTime
    ensures fault.Some? && fault.value.kind.DelayFault? ==>
              DeliveredEnvelope(cfg, s, fault).value.receivedAt == s.pending.eventTime.Add(fault.value.delay)
  {
  }

  lemma LateByAge(agent: Agent, cfg: Config, envelope: Option<Envelope>, age: int)
    requires cfg.Valid() && Wired(agent, cfg) && EventOf(envelope).Some?
    requires envelope.value.receivedAt.ns - EventOf(envelope).value.eventTime.ns == age >= 0
    ensures Late(agent, envelope) <==> age > cfg.interval
  {
    IntervalFitsDay(cfg);
    hide EventOf, ScheduleValid, Blank;
  }

  // ---------------------------------------------------------------------------------------------
  // An even household

  /** A battery of which one interval's load is a share of 10 / count percent. */
  predicate Fitted(cfg: Config, share: real) {
    && share * cfg.batteryCapacityKWh == 100.0 * (3.0 * Hours(cfg.interval))
    && cfg.startingBatterySOCPercent == 30.0
    && cfg.loadBasePowerKW == 1.0
    && cfg.priceBaseEURPerKWh == 0.5
  }

  function Fit(cfg: Config, count: nat): Config {
    cfg.(batteryCapacityKWh := 30.0 * count as real * Hours(cfg.interval), startingBatterySOCPercent := 30.0,
         loadBasePowerKW := 1.0, priceBaseEURPerKWh := 0.5)
  }

  lemma FitIsValid(cfg: Config, count: nat)
    requires cfg.Valid() && count >= 1
    ensures Fit(cfg, count).Valid() && SameTimeline(cfg, Fit(cfg, count))
    ensures 0.0 < 10.0 / count as real <= 10.0 && 10.0 / count as real * count as real == 10.0
    ensures Fitted(Fit(cfg, count), 10.0 / count as real)
  {
    var n, hours := count as real, Hours(cfg.interval);
    assert n >= 1.0 && hours > 0.0;
    assert 10.0 / n * n == 10.0;
    assert 30.0 * n * hours > 0.0;
    assert 10.0 / n * (30.0 * n * hours) == 10.0 / n * n * (30.0 * hours);
    hide ScheduleValid, Blank;
  }

  predicate Even(s: SimState) {
    s.dailyLoadFactor == 1.0 && s.dailyPriceFactor == 1.0
  }

  predicate EvenSample(sample: Sample) {
    sample.pvPowerKW == 0.0 && sample.loadPowerKW == 3.0 && sample.priceEURPerKWh == 0.675
  }

  lemma AdvancedIsEven(cfg: Config, share: real, s: SimState)
    requires Fitted(cfg, share) && Even(s)
    ensures var next := Advanced(cfg, EvenNature(cfg), s);
            Even(next) && EvenSample(next.pending)
  {
    hide HourOfDay, LongName;
  }

  lemma CompletedStaysEven(cfg: Config, s: SimState, command: Option<Command>)
    requires cfg.batteryCapacityKWh > 0.0 && Even(s)
    ensures Even(Completed(cfg, s, command).0)
  {
    hide NextBatterySOCPercent, CommandError;
  }

  /** The command for an even event that reports at least a share above the reserve. */
  lemma EvenDecision(cfg: Config, share: real, state: State)
    requires cfg.interval > 0 && cfg.batteryCapacityKWh > 0.0 && Fitted(cfg, share)
    requires state.pvPowerKW == 0.0 && state.loadPowerKW == 3.0 && state.priceEURPerKWh == 0.675
    requires share > 0.0 && state.batterySOCPercent >= 20.0 + share
    ensures Policy(cfg.batteryCapacityKWh, cfg.interval).Valid()
    ensures CommandBatteryPowerKW(Policy(cfg.batteryCapacityKWh, cfg.interval).Decide(state)) == -3.0
  {
    var policy := Policy(cfg.batteryCapacityKWh, cfg.interval);
    var soc, hours := state.batterySOCPercent, Hours(cfg.interval);
    assert hours > 0.0;
    AtLeast(soc - 20.0, cfg.batteryCapacityKWh, share, cfg.batteryCapacityKWh);
    assert (soc - 20.0) / 100.0 * cfg.batteryCapacityKWh >= 3.0 * hours;
    QuotientAtLeast((soc - 20.0) / 100.0 * cfg.batteryCapacityKWh, 3.0, hours);
    hide Hours, Fitted;
  }

  lemma QuotientAtLeast(a: real, b: real, c: real)
    requires c > 0.0 && a >= b * c
    ensures a / c >= b
  {
    assert a / c * c == a;
    TimesKeepsOrder(a / c, b, c);
  }

  lemma TimesKeepsOrder(a: real, b: real, c: real)
    requires c > 0.0
    ensures a >= b <==> a * c >= b * c
  {
    if a >= b {
      assert (a - b) * c >= 0.0;
    } else {
      assert (b - a) * c > 0.0;
    }
  }

  /** The even household's charge after a step: the reserve, and a share for each command still to come. */
  function Level(cfg: Config, share: real, count: nat, step: nat): real {
    SharesUp(share, count - Count(cfg, step))
  }

  function SharesUp(share: real, left: int): real {
    20.0 + share * left as real
  }

  /** A run of the even household that has drained as often as the schedule commands. */
  predicate Draining(agent: Agent, cfg: Config, nature: Nature, plant: Plant, share: real, count: nat) {
    && Accountable(agent, cfg, nature, plant)
    && Even(plant.sim)
    && plant.sim.batterySOCPercent == Level(cfg, share, count, plant.sim.step)
    && (plant.sim.step > 0 ==>
          && EvenSample(plant.sim.prior)
          && plant.sim.prior.batterySOCPercent == Level(cfg, share, count, plant.sim.step - 1))
  }

  lemma DrainingMeans(agent: Agent, cfg: Config, nature: Nature, plant: Plant, share: real, count: nat)
    requires Draining(agent, cfg, nature, plant, share, count)
    ensures Accountable(agent, cfg, nature, plant) && Even(plant.sim)
    ensures plant.sim.batterySOCPercent == Level(cfg, share, count, plant.sim.step)
    ensures plant.sim.step > 0 ==>
              && EvenSample(plant.sim.prior)
              && plant.sim.prior.batterySOCPercent == Level(cfg, share, count, plant.sim.step - 1)
  {
    hide Accountable, Even, EvenSample, Level;
  }

  /** One step takes the level down by a share if it commands, and leaves it if not. */
  lemma LevelFalls(cfg: Config, share: real, count: nat, step: nat)
    requires share > 0.0
    ensures Level(cfg, share, count, step + 1) ==
            Level(cfg, share, count, step) - if Commands(cfg, step + 1) then share else 0.0
    ensures Count(cfg, step) == count ==> Level(cfg, share, count, step) == 20.0
    ensures share * count as real == 10.0 ==> Level(cfg, share, count, 0) == 30.0
    ensures share * count as real == 10.0 && Commands(cfg, step + 1) && Count(cfg, step + 1) <= count ==>
              share <= 10.0 && 20.0 + share <= Level(cfg, share, count, step) <= 30.0
  {
    hide *;
    var left := count - Count(cfg, step);
    CommandsMeans(cfg, step + 1);
    LevelMeans(cfg, share, count);
    OneShareLess(share, left);
    SharesBound(share, count, left);
  }

  lemma LevelMeans(cfg: Config, share: real, count: nat)
    ensures forall step: nat :: Level(cfg, share, count, step) == SharesUp(share, count - Count(cfg, step))
    ensures Count(cfg, 0) == 0
  {
    hide SharesUp, Commands;
  }

  lemma OneShareLess(share: real, left: int)
    ensures SharesUp(share, left - 1) == SharesUp(share, left) - share
    ensures SharesUp(share, 0) == 20.0
  {
    assert (left - 1) as real == left as real - 1.0;
  }

  lemma SharesBound(share: real, count: nat, left: int)
    requires share > 0.0
    ensures share * count as real == 10.0 ==> SharesUp(share, count) == 30.0
    ensures share * count as real == 10.0 && 1 <= left <= count ==>
              share <= 10.0 && 20.0 + share <= SharesUp(share, left) <= 30.0
  {
    if share * count as real == 10.0 && 1 <= left <= count {
      AtLeast(share, left as real, share, 1.0);
      AtLeast(share, count as real, share, left as real);
    }
  }

  /** The event handed over is an even one. */
  lemma HandedEven(cfg: Config, share: real, s: SimState)
    requires cfg.Valid() && Poised(cfg, EvenNature(cfg), s)
    requires Fitted(cfg, share) && Even(s) && (s.step > 0 ==> EvenSample(s.prior))
    ensures var event := EventOf(HandedEnvelope(cfg, EvenNature(cfg), s));
            event.Some? ==>
              event.value.pvPowerKW == 0.0 && event.value.loadPowerKW == 3.0 && event.value.priceEURPerKWh == 0.675
  {
    EvenNatureAvoids(cfg);
    HandedEvent(cfg, EvenNature(cfg), s);
    AdvancedIsEven(cfg, share, s);
    hide EventOf, HandedEnvelope, Advanced, FaultAt, InstantOf, Config.Valid, Nature.Lawful, Poised, Padded, EvenNature,
      RedatedName, HandsOver, Fitted, Even;
  }

  /** What a calm interval of the even household does. */
  predicate DrainsOn(
    agent: Agent, cfg: Config, nature: Nature, plant: Plant, e: PlantEffect, share: real, count: nat)
  {
    && e.ending.Running?
    && Draining(agent, cfg, nature, e.plant, share, count)
    && e.plant.sim.step == plant.sim.step + 1
  }

  /** Up to the first fresh opening, each commanding step takes its share. */
  lemma DrainingStep(
    agent: Agent, hp: HealthPolicy, cfg: Config, plant: Plant, tick: Tick, share: real, count: nat)
    requires cfg.Valid() && Wired(agent, cfg) && Fitted(cfg, share) && 0.0 < share && share * count as real == 10.0
    requires Draining(agent, cfg, EvenNature(cfg), plant, share, count) && Calm(tick)
    requires !OpensFresh(cfg, plant.sim.step + 1) && Count(cfg, plant.sim.step + 1) <= count
    ensures agent.policy.Valid() && cfg.batteryCapacityKWh > 0.0
    ensures var e := PlantInterval(agent, hp, cfg, EvenNature(cfg), plant, tick);
            DrainsOn(agent, cfg, EvenNature(cfg), plant, e, share, count)
  {
    hide *;
    var nature := EvenNature(cfg);
    var k := plant.sim.step + 1;
    EvenNatureAvoids(cfg);
    PolicyIsValid(agent, cfg);
    PositiveInterval(cfg);
    DrainingMeans(agent, cfg, nature, plant, share, count);
    AccountableParts(agent, cfg, nature, plant);
    CalmMeans(tick);
    var soc := plant.sim.batterySOCPercent;
    var envelope := HandedEnvelope(cfg, nature, plant.sim);
    var step := Step(envelope, tick.now, tick.fate);
    var e := Interval(agent, hp, plant.memory, plant.db, step);
    var after := PlantInterval(agent, hp, cfg, nature, plant, tick);
    StaleEnvelope(agent, cfg, nature, plant);
    NothingStale(agent, cfg, nature, plant);
    IntervalContinues(agent, hp, plant.memory, plant.db, step);
    IntervalDispatch(agent, hp, plant.memory, plant.db, step);
    HandsOut(cfg, nature, plant.sim);
    PlantAdvances(agent, hp, cfg, nature, plant, tick);
    AdvancesMeans(agent, hp, cfg, nature, plant, tick, envelope);
    StaysAccountable(agent, hp, cfg, nature, plant, tick);
    AdvancedIsEven(cfg, share, plant.sim);
    CompletedStaysEven(cfg, Advanced(cfg, nature, plant.sim), CommandOf(e.sent));
    OwnEvent(agent, cfg, nature, plant);
    HandedAge(agent, cfg, nature, plant.sim);
    CommandsMeans(cfg, k);
    LevelFalls(cfg, share, count, plant.sim.step);
    if Commands(cfg, k) {
      HandedEven(cfg, share, plant.sim);
      NewEventInterval(agent, hp, plant.memory, plant.db, step);
      StateParts(EventOf(envelope).value);
      EvenDecision(cfg, share, StateOf(EventOf(envelope).value));
      FittedMeans(cfg, share);
      TakesShare(soc, 3.0, cfg.interval, cfg.batteryCapacityKWh, share);
    }
    DrainingFrom(agent, cfg, nature, plant, after, share, count);
  }

  lemma CalmMeans(tick: Tick)
    requires Calm(tick)
    ensures tick.fate.Completes? && tick.now.Durable() && ReachesSink(tick.fate)
  {
  }

  lemma CommandsMeans(cfg: Config, step: int)
    requires step >= 1
    ensures Commands(cfg, step) <==> Moves(cfg, step) && Age(cfg, step) <= cfg.interval
    ensures Count(cfg, step) == Count(cfg, step - 1) + if Commands(cfg, step) then 1 else 0
  {
    hide Moves, Age;
  }

  lemma StateParts(event: Telemetry)
    ensures var s := StateOf(event);
            && s.pvPowerKW == event.pvPowerKW
            && s.loadPowerKW == event.loadPowerKW
            && s.priceEURPerKWh == event.priceEURPerKWh
            && s.batterySOCPercent == event.batterySOCPercent
  {
  }

  lemma DrainingFrom(
    agent: Agent, cfg: Config, nature: Nature, plant: Plant, e: PlantEffect, share: real, count: nat)
    requires Draining(agent, cfg, nature, plant, share, count) && share > 0.0
    requires e.ending.Running? && Accountable(agent, cfg, nature, e.plant) && Even(e.plant.sim)
    requires e.plant.sim.step == plant.sim.step + 1
    requires EvenSample(e.plant.sim.prior)
    requires e.plant.sim.prior.batterySOCPercent == plant.sim.batterySOCPercent
    requires e.plant.sim.batterySOCPercent ==
             plant.sim.batterySOCPercent - if Commands(cfg, plant.sim.step + 1) then share else 0.0
    ensures DrainsOn(agent, cfg, nature, plant, e, share, count)
  {
    hide *;
    CommandsMeans(cfg, plant.sim.step + 1);
    DrainingMeans(agent, cfg, nature, plant, share, count);
    LevelFalls(cfg, share, count, plant.sim.step);
    DrainsOnIf(agent, cfg, nature, plant, e, share, count);
  }

  lemma DrainsOnIf(
    agent: Agent, cfg: Config, nature: Nature, plant: Plant, e: PlantEffect, share: real, count: nat)
    requires e.ending.Running? && Accountable(agent, cfg, nature, e.plant) && Even(e.plant.sim)
    requires e.plant.sim.step == plant.sim.step + 1 && EvenSample(e.plant.sim.prior)
    requires e.plant.sim.prior.batterySOCPercent == Level(cfg, share, count, plant.sim.step)
    requires e.plant.sim.batterySOCPercent == Level(cfg, share, count, plant.sim.step + 1)
    ensures DrainsOn(agent, cfg, nature, plant, e, share, count)
  {
    hide Accountable, Even, EvenSample, Level;
  }

  lemma FittedMeans(cfg: Config, share: real)
    requires Fitted(cfg, share)
    ensures share * cfg.batteryCapacityKWh == 100.0 * (3.0 * Hours(cfg.interval))
    ensures cfg.startingBatterySOCPercent == 30.0
  {
    hide Hours;
  }

  // ---------------------------------------------------------------------------------------------
  // A fresh opening sinks the even household

  lemma {:induction false} NewestIsOlder(cfg: Config, step: nat)
    requires cfg.Valid()
    ensures Newest(cfg, step).Some? ==> Newest(cfg, step).value <= InstantOf(cfg, step)
    ensures Newest(cfg, step).Some? && FaultAt(cfg.faults, step).Some?
            && (FaultAt(cfg.faults, step).value.kind.OutOfOrderFault?
                || FaultAt(cfg.faults, step).value.kind.DuplicateFault?)
            ==> Newest(cfg, step).value < InstantOf(cfg, step)
  {
    if step > 0 {
      NewestIsOlder(cfg, step - 1);
      InstantsAdvance(cfg, step - 1);
      FaultAtFinds(cfg.faults, step);
      ValidFaultAt(cfg, step);
    }
    hide Fresh, FaultAt, InstantOf, ScheduleValid, Blank, Rejects;
  }

  lemma ValidFaultAt(cfg: Config, step: int)
    requires cfg.Valid()
    ensures FaultAt(cfg.faults, step).Some? ==> FaultAt(cfg.faults, step).value.Valid()
  {
    FaultAtFinds(cfg.faults, step);
    hide FaultAt, Rejects, Blank;
  }

  lemma OpeningCommands(cfg: Config, step: int)
    requires OpensFresh(cfg, step)
    ensures step >= 2 && Opens(cfg, step) && Commands(cfg, step - 1)
    ensures FaultAt(cfg.faults, step - 1).Some?
    ensures FaultAt(cfg.faults, step - 1).value.kind.OutOfOrderFault?
            || FaultAt(cfg.faults, step - 1).value.kind.DuplicateFault?
    ensures Fresh(cfg, step) && DeliversEvent(cfg, step)
  {
    OpensMeans(cfg, step);
    hide Opens, FaultAt, InstantOf, Moves;
  }

  lemma FreshOpeningIsStale(agent: Agent, cfg: Config, plant: Plant, share: real, count: nat)
    requires cfg.Valid() && Wired(agent, cfg) && Fitted(cfg, share) && 0.0 < share <= 10.0
    requires Draining(agent, cfg, EvenNature(cfg), plant, share, count)
    requires OpensFresh(cfg, plant.sim.step + 1) && count == Count(cfg, plant.sim.step)
    ensures agent.policy.Valid() && cfg.batteryCapacityKWh > 0.0
    ensures RedeliversStaleCharge(cfg, plant)
    ensures StaleCharge(agent, cfg, plant) < MINIMUM_DISCHARGE_SOC_PERCENT
  {
    hide *;
    var nature := EvenNature(cfg);
    var step := plant.sim.step;
    var prior := plant.sim.prior;
    PolicyIsValid(agent, cfg);
    PositiveInterval(cfg);
    EvenNatureAvoids(cfg);
    DrainingMeans(agent, cfg, nature, plant, share, count);
    AccountableParts(agent, cfg, nature, plant);
    OwnMeans(agent, cfg, nature, plant);
    OpeningCommands(cfg, step + 1);
    OpensMeans(cfg, step + 1);
    CommandsMeans(cfg, step);
    NewestIsOlder(cfg, step);
    HandedEvent(cfg, nature, plant.sim);
    OwnEvent(agent, cfg, nature, plant);
    LevelFalls(cfg, share, count, step);
    LevelFalls(cfg, share, count, step - 1);
    ReserveIsTwenty();
    RememberedBefore(cfg, step, plant.memory.state);
    PriorParts(cfg.deviceID, prior);
    SupersedesByTime(TelemetryOf(cfg.deviceID, prior), plant.memory.state);
    StaleIf(cfg, plant);
    StaleMeans(agent, cfg, plant, Tick(ZERO_TIME, Completes), None);
    EvenDecision(cfg, share, StateOf(TelemetryOf(cfg.deviceID, prior)));
    WiredMeans(agent, cfg);
    FittedMeans(cfg, share);
    TakesShare(plant.sim.batterySOCPercent, 3.0, cfg.interval, cfg.batteryCapacityKWh, share);
  }

  lemma ReserveIsTwenty()
    ensures MINIMUM_DISCHARGE_SOC_PERCENT == 20.0
  {
  }

  lemma RememberedBefore(cfg: Config, step: nat, state: State)
    requires Remembers(Newest(cfg, step), state)
    requires Newest(cfg, step).Some? ==> Newest(cfg, step).value < InstantOf(cfg, step)
    ensures state.updatedAt.IsZero() || state.updatedAt.ns < InstantOf(cfg, step)
  {
    hide Newest, InstantOf;
  }

  lemma PriorParts(deviceID: string, prior: Sample)
    ensures var event := TelemetryOf(deviceID, prior);
            && event.eventID == prior.eventID
            && event.eventTime == prior.eventTime
            && StateOf(event).batterySOCPercent == prior.batterySOCPercent
            && (EvenSample(prior) ==>
                  && StateOf(event).pvPowerKW == 0.0
                  && StateOf(event).loadPowerKW == 3.0
                  && StateOf(event).priceEURPerKWh == 0.675)
    ensures prior.eventTime.ns != 0 ==> !prior.eventTime.IsZero()
  {
  }

  lemma StaleIf(cfg: Config, plant: Plant)
    requires var fault := FaultAt(cfg.faults, plant.sim.step + 1);
             fault.Some? && fault.value.kind.DuplicateFault?
    requires plant.sim.prior.eventID !in plant.db.telemetry
    requires !plant.sim.prior.eventTime.IsZero()
    requires InstantOf(cfg, plant.sim.step + 1) != 0
    requires Supersedes(TelemetryOf(cfg.deviceID, plant.sim.prior), plant.memory.state)
    requires plant.sim.prior.batterySOCPercent != plant.sim.batterySOCPercent
    ensures RedeliversStaleCharge(cfg, plant)
  {
    hide FaultAt, InstantOf, Supersedes;
  }

  lemma WiredMeans(agent: Agent, cfg: Config)
    requires Wired(agent, cfg)
    ensures agent.policy == Policy(cfg.batteryCapacityKWh, cfg.interval)
  {
  }

  lemma {:induction false} DrainsUntil(
    agent: Agent, hp: HealthPolicy, cfg: Config, plant: Plant, ticks: seq<Tick>, share: real, last: nat)
    requires cfg.Valid() && Wired(agent, cfg) && Fitted(cfg, share)
    requires 0.0 < share && share * Count(cfg, last) as real == 10.0
    requires Draining(agent, cfg, EvenNature(cfg), plant, share, Count(cfg, last))
    requires AllCalm(ticks) && plant.sim.step + |ticks| == last
    requires forall step :: step <= last ==> !OpensFresh(cfg, step)
    ensures agent.policy.Valid() && cfg.batteryCapacityKWh > 0.0
    ensures var e := PlantLoop(agent, hp, cfg, EvenNature(cfg), plant, ticks);
            && e.ending.Running?
            && Draining(agent, cfg, EvenNature(cfg), e.plant, share, Count(cfg, last))
            && e.plant.sim.step == last
    decreases |ticks|
  {
    hide *;
    PolicyIsValid(agent, cfg);
    PlantLoopUnfolds(agent, hp, cfg, EvenNature(cfg), plant, ticks);
    if ticks != [] {
      CalmParts(ticks);
      CountsUp(cfg, plant.sim.step + 1, last);
      DrainingStep(agent, hp, cfg, plant, ticks[0], share, Count(cfg, last));
      var first := PlantInterval(agent, hp, cfg, EvenNature(cfg), plant, ticks[0]);
      DrainsOnMeans(agent, cfg, EvenNature(cfg), plant, first, share, Count(cfg, last));
      DrainsUntil(agent, hp, cfg, first.plant, ticks[1..], share, last);
    }
  }

  lemma DrainsOnMeans(
    agent: Agent, cfg: Config, nature: Nature, plant: Plant, e: PlantEffect, share: real, count: nat)
    requires DrainsOn(agent, cfg, nature, plant, e, share, count)
    ensures e.ending.Running? && Draining(agent, cfg, nature, e.plant, share, count)
    ensures e.plant.sim.step == plant.sim.step + 1
  {
    hide Draining;
  }

  /** The first step on which a schedule opens afresh. */
  lemma FirstFreshOpening(cfg: Config, step: nat) returns (first: nat)
    requires OpensFresh(cfg, step)
    ensures OpensFresh(cfg, first) && forall earlier :: earlier < first ==> !OpensFresh(cfg, earlier)
  {
    hide Opens, Moves;
    if earlier :| earlier < step && OpensFresh(cfg, earlier) {
      first := FirstFreshOpening(cfg, earlier);
    } else {
      first := step;
    }
  }

  lemma StartsDraining(agent: Agent, cfg: Config, share: real, count: nat)
    requires cfg.Valid() && Wired(agent, cfg) && Fitted(cfg, share) && share > 0.0 && share * count as real == 10.0
    ensures var plant := StartedPlant(cfg, EvenNature(cfg), EMPTY_DATABASE);
            Draining(agent, cfg, EvenNature(cfg), plant, share, count) && plant.sim.step == 0
  {
    EvenNatureAvoids(cfg);
    StartsAccountable(agent, cfg, EvenNature(cfg));
    StartsEven(cfg);
    FittedMeans(cfg, share);
    hide *;
    LevelFalls(cfg, share, count, 0);
    DrainingIf(agent, cfg, StartedPlant(cfg, EvenNature(cfg), EMPTY_DATABASE), share, count);
  }

  lemma StartsEven(cfg: Config)
    ensures Even(StartedPlant(cfg, EvenNature(cfg), EMPTY_DATABASE).sim)
  {
    hide LongName;
  }

  lemma DrainingIf(agent: Agent, cfg: Config, plant: Plant, share: real, count: nat)
    requires Accountable(agent, cfg, EvenNature(cfg), plant) && Even(plant.sim) && plant.sim.step == 0
    requires plant.sim.batterySOCPercent == Level(cfg, share, count, 0)
    ensures Draining(agent, cfg, EvenNature(cfg), plant, share, count)
  {
    hide Accountable, Even, Level, EvenNature;
  }

  /** The converse, from the empty database: on a schedule that opens afresh, the even household goes down from
      30 percent to the reserve in equal shares, one for each command up to the step before the opening, and
      at the opening takes one share more. */
  lemma FreshOpeningSinks(
    agent: Agent, hp: HealthPolicy, cfg: Config, ticks: seq<Tick>, share: real, step: nat)
    requires cfg.Valid() && Wired(agent, cfg) && Fitted(cfg, share)
    requires OpensFresh(cfg, step) && forall earlier :: earlier < step ==> !OpensFresh(cfg, earlier)
    requires 0.0 < share <= 10.0 && share * Count(cfg, step - 1) as real == 10.0
    requires AllCalm(ticks) && |ticks| == step
    ensures !KeepsReserve(agent, hp, cfg, EvenNature(cfg), EMPTY_DATABASE, ticks)
  {
    hide *;
    var nature := EvenNature(cfg);
    var plant := StartedPlant(cfg, nature, EMPTY_DATABASE);
    var last := step - 1;
    PolicyIsValid(agent, cfg);
    EvenNatureAvoids(cfg);
    EmptyStart(cfg.deviceID);
    StartsAccountable(agent, cfg, nature);
    FittedMeans(cfg, share);
    OpeningCommands(cfg, step);
    StartsDraining(agent, cfg, share, Count(cfg, last));
    CalmPrefix(ticks, last);
    DrainsUntil(agent, hp, cfg, plant, ticks[..last], share, last);
    var before := PlantLoop(agent, hp, cfg, nature, plant, ticks[..last]).plant;
    FreshOpeningIsStale(agent, cfg, before, share, Count(cfg, last));
    PlantAtMeans(agent, hp, cfg, nature, plant, ticks, last);
    SinksThere(agent, hp, cfg, nature, plant, ticks, last, before);
    RunBreaksExactly(agent, hp, cfg, nature, EMPTY_DATABASE, ticks);
    ReserveOfThirty();
    ReserveLost(agent, hp, cfg, nature, EMPTY_DATABASE, ticks);
  }

  lemma ReserveOfThirty()
    ensures Min(30.0, MINIMUM_DISCHARGE_SOC_PERCENT) == MINIMUM_DISCHARGE_SOC_PERCENT
  {
  }

  lemma CalmPrefix(ticks: seq<Tick>, n: nat)
    requires AllCalm(ticks) && n < |ticks|
    ensures AllCalm(ticks[..n]) && ReachesSink(ticks[n].fate)
  {
  }

  lemma SinksThere(
    agent: Agent, hp: HealthPolicy, cfg: Config, nature: Nature, plant: Plant, ticks: seq<Tick>, n: nat, before: Plant)
    requires agent.policy.Valid() && cfg.batteryCapacityKWh > 0.0 && n < |ticks|
    requires PlantAt(agent, hp, cfg, nature, plant, ticks, n) == Some(before)
    requires RedeliversStaleCharge(cfg, before) && ReachesSink(ticks[n].fate)
    requires StaleCharge(agent, cfg, before) < MINIMUM_DISCHARGE_SOC_PERCENT
    ensures EverSinks(agent, hp, cfg, nature, plant, ticks, MINIMUM_DISCHARGE_SOC_PERCENT)
  {
    assert SinksAt(agent, hp, cfg, nature, plant, ticks, n, MINIMUM_DISCHARGE_SOC_PERCENT);
    hide PlantAt, RedeliversStaleCharge, ReachesSink, StaleCharge;
  }

  // ---------------------------------------------------------------------------------------------
  // The condition is exact

  /** No household with this timeline and these faults ever goes below its reserve on a database of its own:
      empty at first, under names that stand for one sample each. */
  ghost predicate NeverSinksFromEmpty(cfg: Config) {
    forall agent, hp, other, nature: Nature, ticks ::
      SameTimeline(cfg, other) && nature.NamesApart() && Avoids(nature, other)
      ==> KeepsReserve(agent, hp, other, nature, EMPTY_DATABASE, ticks)
  }

  lemma SameDeliveries(cfg: Config, other: Config, step: int)
    requires SameTimeline(cfg, other)
    ensures Fresh(cfg, step) == Fresh(other, step) && EventTime(cfg, step) == EventTime(other, step)
  {
    forall j ensures RedatedName(cfg, j) == RedatedName(other, j) {
    }
    hide FaultAt, RedatedName;
  }

  lemma {:induction false} SameNewest(cfg: Config, other: Config, step: nat)
    requires SameTimeline(cfg, other)
    ensures Newest(cfg, step) == Newest(other, step)
  {
    if step > 0 {
      SameNewest(cfg, other, step - 1);
      SameDeliveries(cfg, other, step);
    }
    hide Fresh, EventTime, SameTimeline;
  }

  lemma SameFreshOpenings(cfg: Config, other: Config, step: int)
    requires SameTimeline(cfg, other)
    ensures OpensFresh(cfg, step) <==> OpensFresh(other, step)
  {
    TimelineOpens(cfg, other, step);
    if step >= 2 {
      SameNewest(cfg, other, step - 2);
      SameDeliveries(cfg, other, step - 1);
    }
    hide Opens, Fresh, EventTime, Newest, SameTimeline;
  }

  lemma FreshUnsafeSinks(cfg: Config, step: nat)
    requires cfg.Valid() && OpensFresh(cfg, step)
    ensures !NeverSinksFromEmpty(cfg)
  {
    hide *;
    var first := FirstFreshOpening(cfg, step);
    OpeningCommands(cfg, first);
    CommandsMeans(cfg, first - 1);
    var count := Count(cfg, first - 1);
    var other := Fit(cfg, count);
    FitIsValid(cfg, count);
    SameCounts(cfg, other, first - 1);
    forall earlier ensures OpensFresh(cfg, earlier) <==> OpensFresh(other, earlier) {
      SameFreshOpenings(cfg, other, earlier);
    }
    ConfiguredAgentIsWired(other, "", 0);
    var agent := Agent("", other.deviceID, NewPolicy(Finite(other.batteryCapacityKWh), other.interval).value, 0);
    var hp := HealthPolicy(1, 2);
    var ticks := CalmTicks(first);
    FreshOpeningSinks(agent, hp, other, ticks, 10.0 / count as real, first);
    EvenNatureAvoids(other);
    if NeverSinksFromEmpty(cfg) {
      NeverFromEmptyMeans(cfg, agent, hp, other, EvenNature(other), ticks);
    }
  }

  lemma {:induction false} SameCounts(cfg: Config, other: Config, step: nat)
    requires SameTimeline(cfg, other)
    ensures Count(cfg, step) == Count(other, step)
  {
    if step > 0 {
      SameCounts(cfg, other, step - 1);
      SameNewest(cfg, other, step - 1);
      SameDeliveries(cfg, other, step);
    }
    hide Fresh, EventTime, Newest, FaultAt;
  }

  lemma NeverFromEmptyMeans(
    cfg: Config, agent: Agent, hp: HealthPolicy, other: Config, nature: Nature, ticks: seq<Tick>)
    requires NeverSinksFromEmpty(cfg) && SameTimeline(cfg, other) && nature.NamesApart() && Avoids(nature, other)
    ensures KeepsReserve(agent, hp, other, nature, EMPTY_DATABASE, ticks)
  {
    hide KeepsReserve, SameTimeline, Nature.NamesApart, Avoids;
  }

  /** The condition for a database of the household's own is exact: the schedule opens afresh on no step, if and
      only if no household with this timeline and these faults, in any weather and whatever befalls it, ever
      goes below its reserve from the empty database. */
  lemma SafeFromEmptyIffNeverSinks(cfg: Config)
    requires cfg.Valid()
    ensures SafeFromEmpty(cfg) <==> NeverSinksFromEmpty(cfg)
  {
    if SafeFromEmpty(cfg) {
      forall agent, hp, other, nature: Nature, ticks |
        SameTimeline(cfg, other) && nature.NamesApart() && Avoids(nature, other)
        ensures KeepsReserve(agent, hp, other, nature, EMPTY_DATABASE, ticks)
      {
        forall step ensures !OpensFresh(other, step) {
          SameFreshOpenings(cfg, other, step);
        }
        ReserveFloorFromEmpty(agent, hp, other, nature, ticks);
      }
    } else {
      var step :| OpensFresh(cfg, step);
      FreshUnsafeSinks(cfg, step);
    }
    hide KeepsReserve, SameTimeline, Config.Valid, Nature.NamesApart, Avoids, Opens, Moves;
  }

  /** Safe on every database is safe on one's own. */
  lemma SafeIsSafeFromEmpty(cfg: Config)
    requires SafeSchedule(cfg)
    ensures SafeFromEmpty(cfg)
  {
    hide Opens, Moves;
  }

  const SAME_TIME: FaultSchedule :=
    [ Fault(2, 0, OutOfOrderFault, -NANOS_PER_HOUR, "late", 0, NoMeasurement, NonFinite),
      Fault(3, 0, DuplicateFault, 0, "", 0, NoMeasurement, NonFinite) ]

  /** The converse fails: an event re-dated to the time of the sample before, then a redelivery. Some database
      lets it sink a household, but the household's own never does, because the event is not newer. */
  lemma SameTimeIsSafeFromEmpty()
    ensures Hourly(SAME_TIME).Valid()
    ensures !SafeSchedule(Hourly(SAME_TIME)) && SafeFromEmpty(Hourly(SAME_TIME))
  {
    var cfg := Hourly(SAME_TIME);
    var f, g := SAME_TIME[0], SAME_TIME[1];
    assert "late"[0] == 'l' && "late"[3] == 'e' && !Padded("late");
    forall step ensures f.ActiveAt(step) <==> step == 2 {
      ActiveIffMeant(f, step);
    }
    forall step ensures g.ActiveAt(step) <==> step == 3 {
      ActiveIffMeant(g, step);
    }
    assert !f.Overlaps(g);
    assert SAME_TIME[1..] == [g] && [g][1..] == [];
    HourlyIsValid(SAME_TIME);
    forall step ensures FaultAt(SAME_TIME, step) == if step == 2 then Some(f) else if step == 3 then Some(g) else None {
      assert FaultAt([g], step) == if g.ActiveAt(step) then Some(g) else None;
    }
    assert RedatedName(cfg, 2) == Some("late") && RedatedName(cfg, 1).None?;
    hide FaultAt, Padded, RedatedName, ScheduleValid, Config.Valid;
    assert Opens(cfg, 3);
    assert Fresh(cfg, 1) && Newest(cfg, 0).None? && Newest(cfg, 1) == Some(NANOS_PER_HOUR);
    assert EventTime(cfg, 2) == NANOS_PER_HOUR && !Moves(cfg, 2);
    hide InstantOf, Fresh, Newest;
  }
}
