/** The program on a fast clock: restore, build the simulator, and run the agent against it. */
module Simulation {
  import opened Basics
  import opened Observations
  import opened LatestState
  import opened Health
  import opened Storage
  import opened Runtime
  import opened Faults
  import opened Simulator
  import opened Clock
  import opened ClosedLoop
  import opened Timeline

  predicate BeforeCommit(fate: Fate) {
    fate.Cancelled? || fate.Exhausted? || fate.SourceFails? || fate.CrashBeforeCommit?
  }

  function EarlyEnding(fate: Fate): Ending {
    match fate
    case Cancelled | Exhausted => CleanStop
    case CrashBeforeCommit => Crashed
    case _ => Failed
  }

  /** What the battery's completion of an interval adds to a processed observation, and the record. */
  function Finish(agent: Agent, cfg: Config, sim: SimState, p: Processing, receivedAt: Time, fate: Fate)
    : (SimState, seq<Record>, Ending)
    requires cfg.batteryCapacityKWh > 0.0
  {
    match p.processed
    case Unprocessed(ending) => (sim, [], ending)
    case Committed(_, outcome) =>
      if fate.CrashAfterCommit? || fate.SinkFails? then (sim, [], EndingOf(fate))
      else
        var (done, ok) := Completed(cfg, sim, CommandOf(DispatchOf(outcome)));
        if !ok then (done, [], Failed)
        else
          (done,
           if EndingOf(fate).Running? then [BuildRecord(agent, receivedAt, outcome)] else [],
           EndingOf(fate))
  }

  /** The plant's interval in the order the program performs it. */
  lemma PlantIntervalInOrder(
    agent: Agent, hp: HealthPolicy, cfg: Config, nature: Nature, plant: Plant, tick: Tick)
    requires agent.policy.Valid() && cfg.batteryCapacityKWh > 0.0
    ensures var e := PlantInterval(agent, hp, cfg, nature, plant, tick);
            var (sim, handover) := Next(cfg, nature, plant.sim);
            if tick.fate.Cancelled? then e.plant == plant && e.records == [] && e.ending.CleanStop?
            else if handover.HandoverFailed? then
              e.plant == Plant(sim, plant.memory, plant.db) && e.records == [] && e.ending.Failed?
            else if BeforeCommit(tick.fate) then
              e.plant == Plant(sim, plant.memory, plant.db) && e.records == [] && e.ending == EarlyEnding(tick.fate)
            else
              var p := Process(agent, hp, plant.memory, plant.db, handover.envelope, tick.now, FailureOf(tick.fate));
              var (done, records, ending) :=
                Finish(agent, cfg, sim, p, ReceivedAtOrNow(handover.envelope, tick.now), tick.fate);
              e.plant == Plant(done, p.memory, p.db) && e.records == records && e.ending == ending
  {
    hide Next, Process, Completed, EventOf, BuildRecord, RecordedBy;
  }

  /** One interval of the program, with the simulator as source and sink. */
  method SimulateInterval(
    agent: Agent, hp: HealthPolicy, state: State, health: DeviceHealth, repository: Repository, household: Household,
    outside: Outside, now: Time, fate: Fate)
    returns (newState: State, newHealth: DeviceHealth, ending: Ending)
    requires agent.policy.Valid() && household.cfg.batteryCapacityKWh > 0.0
    modifies repository, household, outside
    ensures var plant := Plant(old(household.Fields()), Memory(state, health), old(repository.Contents()));
            var e := PlantInterval(agent, hp, household.cfg, household.nature, plant, Tick(now, fate));
            && Plant(household.Fields(), Memory(newState, newHealth), repository.Contents()) == e.plant
            && outside.records == old(outside.records) + e.records
            && ending == e.ending
  {
    PlantIntervalInOrder(
      agent, hp, household.cfg, household.nature,
      Plant(household.Fields(), Memory(state, health), repository.Contents()), Tick(now, fate));
    hide PlantInterval, Next, Process, Completed, EventOf, BuildRecord;
    newState, newHealth := state, health;
    if fate.Cancelled? {
      return newState, newHealth, CleanStop;
    }
    var handover := household.NextObservation();
    if handover.HandoverFailed? {
      return newState, newHealth, Failed;
    }
    if BeforeCommit(fate) {
      return newState, newHealth, EarlyEnding(fate);
    }
    var processed;
    newState, newHealth, processed := ProcessObservation(
      agent, hp, state, health, repository, handover.envelope, now, FailureOf(fate));
    if processed.Unprocessed? {
      return newState, newHealth, processed.ending;
    }
    if fate.CrashAfterCommit? || fate.SinkFails? {
      return newState, newHealth, EndingOf(fate);
    }
    var ok := household.Complete(CommandOf(DispatchOf(processed.outcome)));
    if !ok {
      return newState, newHealth, Failed;
    }
    if fate.CrashAfterApply? {
      return newState, newHealth, Crashed;
    }
    ok := outside.Write(BuildRecord(agent, ReceivedAtOrNow(handover.envelope, now), processed.outcome), fate);
    ending := if ok then Running else Failed;
  }

  /** What the first intervals of a run did, and what is left of it. */
  predicate Continues(whole: PlantEffect, written: seq<Record>, rest: PlantEffect) {
    && whole.plant == rest.plant
    && whole.records == written + rest.records
    && whole.ending == rest.ending
  }

  lemma PlantLoopStep(
    agent: Agent, hp: HealthPolicy, cfg: Config, nature: Nature, whole: PlantEffect, written: seq<Record>,
    plant: Plant, ticks: seq<Tick>)
    requires agent.policy.Valid() && cfg.batteryCapacityKWh > 0.0
    requires ticks != []
    requires Continues(whole, written, PlantLoop(agent, hp, cfg, nature, plant, ticks))
    ensures var first := PlantInterval(agent, hp, cfg, nature, plant, ticks[0]);
            var rest := PlantLoop(agent, hp, cfg, nature, first.plant, ticks[1..]);
            if first.ending.Running? then Continues(whole, written + first.records, rest)
            else
              && whole.plant == first.plant
              && whole.records == written + first.records
              && whole.ending == first.ending
  {
    PlantLoopUnfolds(agent, hp, cfg, nature, plant, ticks);
    hide PlantLoop, PlantInterval;
  }

  lemma LastReading(from: Time, interval: int, fates: seq<Fate>, i: nat)
    requires i < |fates|
    ensures |InstantTicks(from, interval, fates)| == |fates|
    ensures InstantTicks(from, interval, fates)[i..][0] == Tick(from.Add(i * interval), fates[i])
    ensures InstantTicks(from, interval, fates)[i..][1..] == InstantTicks(from, interval, fates)[i + 1..]
    ensures from.Add(i * interval).Add(interval) == from.Add((i + 1) * interval)
  {
    InstantTickAt(from, interval, fates, i);
    hide InstantTicks;
  }

  /** The program after migration: read the device's snapshot, build the simulator from it, then run the
      agent, which reads the snapshot again. Nothing runs when a read fails or a configuration is refused;
      otherwise the battery resumes from the stored charge, the first interval starts at once, the clock
      ticks between intervals, and the run is bounded by the interval count. */
  method Simulate(
    agent: Agent, cfg: Config, nature: Nature, repository: Repository, clock: InstantClock, outside: Outside,
    fates: seq<Fate>, restoreFails: bool, snapshotFails: bool)
    returns (ending: Ending, household: Household?)
    requires agent.policy.Valid() && agent.deviceID == cfg.deviceID
    modifies repository, clock, outside
    ensures household != null ==> fresh(household)
    ensures household != null <==> !restoreFails && Restored(cfg, old(repository.Contents())).Valid()
    ensures household != null ==> household.cfg == Restored(cfg, old(repository.Contents()))
    ensures household != null ==> household.cfg.batteryCapacityKWh > 0.0
    ensures var db := old(repository.Contents());
            var hp := NewHealthPolicy(agent.policy.interval, 0, 0);
            if household == null || hp.Err? || snapshotFails then
              && repository.Contents() == db
              && outside.records == old(outside.records)
              && ending.Failed?
            else
              var e := PlantLoop(agent, hp.value, household.cfg, nature, StartedPlant(cfg, nature, db),
                                 InstantTicks(old(clock.now), agent.policy.interval, Bounded(agent, fates)));
              && repository.Contents() == e.plant.db
              && household.Fields() == e.plant.sim
              && outside.records == old(outside.records) + e.records
              && ending == (if e.ending.Running? && 0 < agent.maxIntervals <= |fates| then Finished else e.ending)
  {
    hide PlantLoop, InstantTicks, Initial, ScheduleValid, NewHealthPolicy, SnapshotOf, Blank;
    var snapshot, found := repository.Snapshot(cfg.deviceID, restoreFails);
    if snapshot.Err? {
      return Failed, null;
    }
    var restored := cfg;
    if found && snapshot.value.state.deviceID != "" {
      restored := cfg.(startingBatterySOCPercent := snapshot.value.state.batterySOCPercent);
    }
    household := Household.New(restored, nature);
    if household == null {
      return Failed, null;
    }
    var hp := NewHealthPolicy(agent.policy.interval, 0, 0);
    if hp.Err? {
      return Failed, household;
    }
    snapshot, found := repository.Snapshot(agent.deviceID, snapshotFails);
    if snapshot.Err? {
      return Failed, household;
    }
    ending := SimulateLoop(
      agent, hp.value, snapshot.value.state, snapshot.value.health, repository, household, outside, clock,
      agent.policy.interval, Bounded(agent, fates));
    if ending.Running? && 0 < agent.maxIntervals <= |fates| {
      ending := Finished;
    }
  }

  method SimulateLoop(
    agent: Agent, hp: HealthPolicy, initialState: State, initialHealth: DeviceHealth, repository: Repository,
    household: Household, outside: Outside, clock: InstantClock, interval: int, fates: seq<Fate>)
    returns (ending: Ending)
    requires agent.policy.Valid() && household.cfg.batteryCapacityKWh > 0.0
    modifies repository, household, outside, clock
    ensures var plant :=
              Plant(old(household.Fields()), Memory(initialState, initialHealth), old(repository.Contents()));
            var e := PlantLoop(agent, hp, household.cfg, household.nature, plant,
                               InstantTicks(old(clock.now), interval, fates));
            && repository.Contents() == e.plant.db
            && household.Fields() == e.plant.sim
            && outside.records == old(outside.records) + e.records
            && ending == e.ending
  {
    hide *;
    var state, health := initialState, initialHealth;
    ghost var plant := Plant(household.Fields(), Memory(state, health), repository.Contents());
    ghost var ticks := InstantTicks(clock.now, interval, fates);
    ghost var whole := PlantLoop(agent, hp, household.cfg, household.nature, plant, ticks);
    ghost var start := clock.now;
    ghost var written := [];
    TicksStart(start, interval, fates);
    NothingWritten(whole);
    ending := Running;
    var count := 0;
    while count < |fates|
      invariant 0 <= count <= |fates|
      invariant plant == Plant(household.Fields(), Memory(state, health), repository.Contents())
      invariant outside.records == old(outside.records) + written
      invariant Continues(whole, written, PlantLoop(agent, hp, household.cfg, household.nature, plant, ticks[count..]))
      invariant clock.now == start.Add((if count == 0 then 0 else count - 1) * interval)
      invariant ending.Running?
    {
      if count > 0 {
        LastReading(start, interval, fates, count - 1);
        var _ := clock.Tick(interval);
      }
      LastReading(start, interval, fates, count);
      var now := clock.Now();
      PlantLoopStep(agent, hp, household.cfg, household.nature, whole, written, plant, ticks[count..]);
      ghost var e :=
        PlantInterval(agent, hp, household.cfg, household.nature, plant, Tick(now, fates[count]));
      state, health, ending :=
        SimulateInterval(agent, hp, state, health, repository, household, outside, now, fates[count]);
      plant := Plant(household.Fields(), Memory(state, health), repository.Contents());
      written := written + e.records;
      if !ending.Running? {
        return;
      }
      count := count + 1;
    }
    PlantLoopUnfolds(agent, hp, household.cfg, household.nature, plant, ticks[count..]);
    AllWritten(whole, written, PlantLoop(agent, hp, household.cfg, household.nature, plant, ticks[count..]));
  }

  lemma NothingWritten(whole: PlantEffect)
    ensures Continues(whole, [], whole)
  {
  }

  lemma AllWritten(whole: PlantEffect, written: seq<Record>, rest: PlantEffect)
    requires Continues(whole, written, rest) && rest.records == []
    ensures whole.plant == rest.plant && whole.records == written && whole.ending == rest.ending
  {
  }

  lemma TicksStart(from: Time, interval: int, fates: seq<Fate>)
    ensures |InstantTicks(from, interval, fates)| == |fates|
    ensures InstantTicks(from, interval, fates)[0..] == InstantTicks(from, interval, fates)
    ensures from == from.Add(0 * interval)
  {
    if fates != [] {
      InstantTickAt(from, interval, fates, 0);
    }
  }
}
