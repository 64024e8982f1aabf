/** Exactly when the feedback loop comes open: which intervals run a command decided from a charge the
    battery no longer has, and which of those take it below its reserve. */
module Openings {
  import opened Basics
  import opened Observations
  import opened LatestState
  import opened Health
  import opened ControlPolicy
  import opened Storage
  import opened Integrity
  import opened Runtime
  import opened Safety
  import opened Progress
  import opened Battery
  import opened Faults
  import opened Simulator
  import opened ClosedLoop

  /** The next step redelivers a sample that storage does not know, that is newer than the state, and
      that was taken before the battery moved. */
  predicate RedeliversStaleCharge(cfg: Config, plant: Plant) {
    var fault := FaultAt(cfg.faults, plant.sim.step + 1);
    var prior := plant.sim.prior;
    && fault.Some?
    && fault.value.kind.DuplicateFault?
    && prior.eventID !in plant.db.telemetry
    && !prior.eventTime.IsZero()
    && InstantOf(cfg, plant.sim.step + 1) != 0
    && Supersedes(TelemetryOf(cfg.deviceID, prior), plant.memory.state)
    && prior.batterySOCPercent != plant.sim.batterySOCPercent
  }

  /** The interval redelivers a stale charge, and nothing keeps its command from the battery. */
  predicate OpensNow(cfg: Config, plant: Plant, tick: Tick) {
    RedeliversStaleCharge(cfg, plant) && ReachesSink(tick.fate)
  }

  /** The command the prior sample calls for. */
  function StaleCommand(agent: Agent, cfg: Config, plant: Plant): Command
    requires agent.policy.Valid()
  {
    agent.policy.Decide(StateOf(TelemetryOf(cfg.deviceID, plant.sim.prior)))
  }

  /** The charge that command leaves. */
  function StaleCharge(agent: Agent, cfg: Config, plant: Plant): real
    requires agent.policy.Valid() && cfg.batteryCapacityKWh > 0.0
  {
    NextBatterySOCPercent(plant.sim.batterySOCPercent, CommandBatteryPowerKW(StaleCommand(agent, cfg, plant)),
                          cfg.interval, cfg.batteryCapacityKWh)
  }

  // ---------------------------------------------------------------------------------------------
  // One interval

  /** What is handed over, seen from the charge it reports. */
  lemma StaleEnvelope(agent: Agent, cfg: Config, nature: Nature, plant: Plant)
    requires cfg.Valid() && nature.Lawful() && Wired(agent, cfg) && PlantSound(agent, cfg, nature, plant)
    ensures var envelope := HandedEnvelope(cfg, nature, plant.sim);
            var event := EventOf(envelope);
            && !Foreign(agent.deviceID, envelope)
            && (RedeliversStaleCharge(cfg, plant) ==>
                  && event == Some(TelemetryOf(cfg.deviceID, plant.sim.prior))
                  && !Late(agent, envelope)
                  && event.value.eventID !in plant.db.telemetry
                  && Supersedes(event.value, plant.memory.state)
                  && event.value.batterySOCPercent != plant.sim.batterySOCPercent)
            && (event.Some? && event.value.eventID !in plant.db.telemetry
                && Supersedes(event.value, plant.memory.state)
                && event.value.batterySOCPercent != plant.sim.batterySOCPercent ==>
                  RedeliversStaleCharge(cfg, plant))
  {
    var s := plant.sim;
    var next := Advanced(cfg, nature, s);
    var fault := FaultAt(cfg.faults, s.step + 1);
    HandsOut(cfg, nature, s);
    InstantsAdvance(cfg, s.step);
    IntervalFitsDay(cfg);
    DeliveredEvent(cfg, next, fault);
    if fault.Some? && fault.value.kind.DuplicateFault? {
      ReceivedOnTime(cfg, next, fault);
    }
    hide EventOf, DeliveredEnvelope, Advanced, FaultAt, SoundSample, InstantOf, ScheduleValid, Intact, Refines,
      Supersedes, Nature.Lawful, SoundFactors, Blank;
  }

  lemma ReceivedOnTime(cfg: Config, s: SimState, fault: Option<Fault>)
    requires fault.None? || fault.value.kind.DuplicateFault?
    ensures DeliveredEnvelope(cfg, s, fault).Some?
    ensures DeliveredEnvelope(cfg, s, fault).value.receivedAt == s.pending.eventTime
  {
  }

  /** Everything one interval of a sound plant can do to the battery, on any schedule and whatever befalls
      it: it comes open exactly when a stale charge is redelivered and gets through, and then it runs the
      command of the old charge; any other command is faithful to the charge the battery has. */
  lemma IntervalOpensExactly(
    agent: Agent, hp: HealthPolicy, cfg: Config, nature: Nature, plant: Plant, tick: Tick)
    requires cfg.Valid() && nature.Lawful() && Wired(agent, cfg)
    requires PlantSound(agent, cfg, nature, plant)
    ensures agent.policy.Valid()
    ensures var e := PlantInterval(agent, hp, cfg, nature, plant, tick);
            var soc := plant.sim.batterySOCPercent;
            && |e.applied| <= 1
            && (e.applied == [] ==> !OpensNow(cfg, plant, tick) && e.plant.sim.batterySOCPercent == soc)
            && (e.applied != [] ==>
                  && e.applied[0].before == soc
                  && e.applied[0].after == e.plant.sim.batterySOCPercent
                  && (e.applied[0].reportedSOC != soc <==> OpensNow(cfg, plant, tick))
                  && (OpensNow(cfg, plant, tick) ==>
                        && e.applied[0].command == StaleCommand(agent, cfg, plant)
                        && e.applied[0].after == StaleCharge(agent, cfg, plant))
                  && (!OpensNow(cfg, plant, tick) ==> Faithful(agent, e.applied[0])))
  {
    hide *;
    var envelope := HandedEnvelope(cfg, nature, plant.sim);
    var step := Step(envelope, tick.now, tick.fate);
    PolicyIsValid(agent, cfg);
    var e := Interval(agent, hp, plant.memory, plant.db, step);
    var soc := plant.sim.batterySOCPercent;
    SoundParts(agent, cfg, nature, plant);
    StaleEnvelope(agent, cfg, nature, plant);
    IntervalDispatch(agent, hp, plant.memory, plant.db, step);
    PlantAdvances(agent, hp, cfg, nature, plant, tick);
    AdvancesMeans(agent, hp, cfg, nature, plant, tick, envelope);
    SentMeansReached(agent, hp, plant.memory, plant.db, step);
    StaleMeans(agent, cfg, plant, tick, envelope);
    ReportedMeans(envelope);
    if OpensNow(cfg, plant, tick) {
      NewEventInterval(agent, hp, plant.memory, plant.db, step);
      ReachesMeans(tick.fate);
    }
    var after := PlantInterval(agent, hp, cfg, nature, plant, tick);
    if after.applied != [] && ReportedSOC(envelope) == soc {
      ChainedOnce(agent, envelope, e.sent[0].eventID, e.sent[0].command, soc, after.plant.sim.batterySOCPercent);
      ChainedFirst(agent, soc, after.applied, after.plant.sim.batterySOCPercent);
    }
  }

  lemma StaleMeans(agent: Agent, cfg: Config, plant: Plant, tick: Tick, envelope: Option<Envelope>)
    requires agent.policy.Valid() && cfg.batteryCapacityKWh > 0.0
    ensures OpensNow(cfg, plant, tick) <==> RedeliversStaleCharge(cfg, plant) && ReachesSink(tick.fate)
    ensures StaleCommand(agent, cfg, plant) == agent.policy.Decide(StateOf(TelemetryOf(cfg.deviceID, plant.sim.prior)))
    ensures StaleCharge(agent, cfg, plant) ==
            NextBatterySOCPercent(plant.sim.batterySOCPercent,
                                  CommandBatteryPowerKW(StaleCommand(agent, cfg, plant)), cfg.interval,
                                  cfg.batteryCapacityKWh)
  {
    hide RedeliversStaleCharge, ReachesSink, NextBatterySOCPercent, CommandBatteryPowerKW, Policy.Decide;
  }

  lemma ReportedMeans(envelope: Option<Envelope>)
    ensures EventOf(envelope).Some? ==> ReportedSOC(envelope) == EventOf(envelope).value.batterySOCPercent
  {
    hide EventOf;
  }

  lemma ReachesMeans(fate: Fate)
    requires ReachesSink(fate)
    ensures !fate.Cancelled? && !fate.SinkFails?
  {
  }

  lemma ChainedFirst(agent: Agent, from: real, applied: seq<Application>, to: real)
    requires Chained(agent, from, applied, to) && applied != []
    ensures Faithful(agent, applied[0])
  {
    hide Faithful;
  }

  // ---------------------------------------------------------------------------------------------
  // One interval and the reserve

  function AboveReserveKWh(agent: Agent, soc: real): real {
    EnergyKWh(soc, agent.policy.batteryCapacityKWh)
    - EnergyKWh(Min(soc, MINIMUM_DISCHARGE_SOC_PERCENT), agent.policy.batteryCapacityKWh)
  }

  function DischargedKWh(agent: Agent, command: Command): real {
    -(CommandBatteryPowerKW(command) * Hours(agent.policy.interval))
  }

  /** On any schedule and under any fate, an interval takes the charge below the reserve, or below where it
      was if that was lower, if and only if it redelivers a stale charge, its command gets through, and
      the command of the old charge discharges more than the present charge has above the reserve. */
  lemma ReserveBreaksExactly(
    agent: Agent, hp: HealthPolicy, cfg: Config, nature: Nature, plant: Plant, tick: Tick)
    requires cfg.Valid() && nature.Lawful() && Wired(agent, cfg)
    requires PlantSound(agent, cfg, nature, plant)
    ensures agent.policy.Valid()
    ensures var e := PlantInterval(agent, hp, cfg, nature, plant, tick);
            var soc := plant.sim.batterySOCPercent;
            (exists i :: 0 <= i < |e.applied|
                         && e.applied[i].after < Min(e.applied[i].before, MINIMUM_DISCHARGE_SOC_PERCENT))
            <==>
            && OpensNow(cfg, plant, tick)
            && soc > 0.0
            && DischargedKWh(agent, StaleCommand(agent, cfg, plant)) > AboveReserveKWh(agent, soc)
  {
    hide *;
    var soc := plant.sim.batterySOCPercent;
    PolicyIsValid(agent, cfg);
    SoundParts(agent, cfg, nature, plant);
    var e := PlantInterval(agent, hp, cfg, nature, plant, tick);
    IntervalOpensExactly(agent, hp, cfg, nature, plant, tick);
    StaleMeans(agent, cfg, plant, tick, None);
    BelowReserve(agent, soc, StaleCommand(agent, cfg, plant));
    if e.applied != [] && !OpensNow(cfg, plant, tick) {
      FaithfulStaysAbove(agent, e.applied[0]);
    }
  }

  /** A command takes a charge below the reserve exactly when it discharges more than there is above. */
  lemma BelowReserve(agent: Agent, soc: real, command: Command)
    requires agent.policy.Valid() && OnScale(soc)
    ensures NextBatterySOCPercent(soc, CommandBatteryPowerKW(command), agent.policy.interval,
                                  agent.policy.batteryCapacityKWh) < Min(soc, MINIMUM_DISCHARGE_SOC_PERCENT)
            <==> soc > 0.0 && DischargedKWh(agent, command) > AboveReserveKWh(agent, soc)
  {
    BelowFloor(soc, CommandBatteryPowerKW(command), agent.policy.interval, agent.policy.batteryCapacityKWh,
               Min(soc, MINIMUM_DISCHARGE_SOC_PERCENT));
    hide NextBatterySOCPercent, EnergyKWh, Hours, CommandBatteryPowerKW;
  }

  lemma FaithfulStaysAbove(agent: Agent, a: Application)
    requires Faithful(agent, a)
    ensures a.after >= Min(a.before, MINIMUM_DISCHARGE_SOC_PERCENT)
  {
    hide Clipped;
  }

  /** The same against any floor the battery is not yet below. */
  lemma FloorBreaksExactly(
    agent: Agent, hp: HealthPolicy, cfg: Config, nature: Nature, plant: Plant, tick: Tick, floor: real)
    requires cfg.Valid() && nature.Lawful() && Wired(agent, cfg)
    requires PlantSound(agent, cfg, nature, plant)
    requires floor <= MINIMUM_DISCHARGE_SOC_PERCENT && floor <= plant.sim.batterySOCPercent
    ensures agent.policy.Valid()
    ensures var e := PlantInterval(agent, hp, cfg, nature, plant, tick);
            && (AnyBelow(e.applied, floor) <==>
                  OpensNow(cfg, plant, tick) && StaleCharge(agent, cfg, plant) < floor)
            && (AnyOpen(e.applied) <==> OpensNow(cfg, plant, tick))
            && (!AnyBelow(e.applied, floor) ==> floor <= e.plant.sim.batterySOCPercent)
  {
    hide *;
    PolicyIsValid(agent, cfg);
    IntervalOpensExactly(agent, hp, cfg, nature, plant, tick);
    var e := PlantInterval(agent, hp, cfg, nature, plant, tick);
    AnyOfOne(e.applied, floor);
    if e.applied != [] && !OpensNow(cfg, plant, tick) {
      FaithfulStaysAbove(agent, e.applied[0]);
      MinIsNotBelow(plant.sim.batterySOCPercent, floor);
    }
  }

  lemma AnyOfOne(applied: seq<Application>, floor: real)
    requires |applied| <= 1
    ensures AnyOpen(applied) <==> applied != [] && applied[0].reportedSOC != applied[0].before
    ensures AnyBelow(applied, floor) <==> applied != [] && applied[0].after < floor
  {
  }

  lemma MinIsNotBelow(soc: real, floor: real)
    requires floor <= MINIMUM_DISCHARGE_SOC_PERCENT && floor <= soc
    ensures floor <= Min(soc, MINIMUM_DISCHARGE_SOC_PERCENT)
  {
  }

  predicate AnyOpen(applied: seq<Application>) {
    exists i :: 0 <= i < |applied| && applied[i].reportedSOC != applied[i].before
  }

  predicate AnyBelow(applied: seq<Application>, floor: real) {
    exists i :: 0 <= i < |applied| && applied[i].after < floor
  }

  lemma AnyInEither(first: seq<Application>, rest: seq<Application>, floor: real)
    ensures AnyOpen(first + rest) <==> AnyOpen(first) || AnyOpen(rest)
    ensures AnyBelow(first + rest, floor) <==> AnyBelow(first, floor) || AnyBelow(rest, floor)
  {
    var all := first + rest;
    assert forall i :: 0 <= i < |first| ==> all[i] == first[i];
    assert forall i :: 0 <= i < |rest| ==> all[|first| + i] == rest[i];
    assert forall i :: |first| <= i < |all| ==> all[i] == rest[i - |first|];
  }

  // ---------------------------------------------------------------------------------------------
  // Whole runs

  /** The plant as the n-th interval finds it, if the run gets there. */
  function PlantAt(
    agent: Agent, hp: HealthPolicy, cfg: Config, nature: Nature, plant: Plant, ticks: seq<Tick>, n: nat)
    : Option<Plant>
    requires agent.policy.Valid() && cfg.batteryCapacityKWh > 0.0
    requires n <= |ticks|
  {
    var e := PlantLoop(agent, hp, cfg, nature, plant, ticks[..n]);
    if e.ending.Running? then Some(e.plant) else None
  }

  lemma PlantAtUnfolds(
    agent: Agent, hp: HealthPolicy, cfg: Config, nature: Nature, plant: Plant, ticks: seq<Tick>, n: nat)
    requires agent.policy.Valid() && cfg.batteryCapacityKWh > 0.0
    requires n < |ticks|
    ensures PlantAt(agent, hp, cfg, nature, plant, ticks, 0) == Some(plant)
    ensures var first := PlantInterval(agent, hp, cfg, nature, plant, ticks[0]);
            PlantAt(agent, hp, cfg, nature, plant, ticks, n + 1) ==
            if first.ending.Running? then PlantAt(agent, hp, cfg, nature, first.plant, ticks[1..], n) else None
  {
    var first := PlantInterval(agent, hp, cfg, nature, plant, ticks[0]);
    assert ticks[..n + 1][0] == ticks[0] && ticks[..n + 1][1..] == ticks[1..][..n];
    hide *;
    PlantLoopUnfolds(agent, hp, cfg, nature, plant, ticks[..0]);
    PlantLoopUnfolds(agent, hp, cfg, nature, plant, ticks[..n + 1]);
    PlantAtMeans(agent, hp, cfg, nature, plant, ticks, 0);
    PlantAtMeans(agent, hp, cfg, nature, plant, ticks, n + 1);
    PlantAtMeans(agent, hp, cfg, nature, first.plant, ticks[1..], n);
  }

  lemma PlantAtMeans(
    agent: Agent, hp: HealthPolicy, cfg: Config, nature: Nature, plant: Plant, ticks: seq<Tick>, n: nat)
    requires agent.policy.Valid() && cfg.batteryCapacityKWh > 0.0
    requires n <= |ticks|
    ensures var e := PlantLoop(agent, hp, cfg, nature, plant, ticks[..n]);
            PlantAt(agent, hp, cfg, nature, plant, ticks, n) == if e.ending.Running? then Some(e.plant) else None
  {
    hide PlantLoop;
  }

  /** The run comes to its n-th interval, and that interval comes open. */
  predicate OpensAt(
    agent: Agent, hp: HealthPolicy, cfg: Config, nature: Nature, plant: Plant, ticks: seq<Tick>, n: nat)
    requires agent.policy.Valid() && cfg.batteryCapacityKWh > 0.0
    requires n < |ticks|
  {
    var found := PlantAt(agent, hp, cfg, nature, plant, ticks, n);
    found.Some? && OpensNow(cfg, found.value, ticks[n])
  }

  /** It comes open, and the command of the old charge takes the battery below the floor. */
  predicate SinksAt(
    agent: Agent, hp: HealthPolicy, cfg: Config, nature: Nature, plant: Plant, ticks: seq<Tick>, n: nat, floor: real)
    requires agent.policy.Valid() && cfg.batteryCapacityKWh > 0.0
    requires n < |ticks|
  {
    var found := PlantAt(agent, hp, cfg, nature, plant, ticks, n);
    found.Some? && OpensNow(cfg, found.value, ticks[n]) && StaleCharge(agent, cfg, found.value) < floor
  }

  predicate EverOpens(
    agent: Agent, hp: HealthPolicy, cfg: Config, nature: Nature, plant: Plant, ticks: seq<Tick>)
    requires agent.policy.Valid() && cfg.batteryCapacityKWh > 0.0
  {
    exists n :: 0 <= n < |ticks| && OpensAt(agent, hp, cfg, nature, plant, ticks, n)
  }

  predicate EverSinks(
    agent: Agent, hp: HealthPolicy, cfg: Config, nature: Nature, plant: Plant, ticks: seq<Tick>, floor: real)
    requires agent.policy.Valid() && cfg.batteryCapacityKWh > 0.0
  {
    exists n :: 0 <= n < |ticks| && SinksAt(agent, hp, cfg, nature, plant, ticks, n, floor)
  }

  /** Whether a run ever opens is decided by its first interval and the rest. */
  lemma EverOpensUnfolds(
    agent: Agent, hp: HealthPolicy, cfg: Config, nature: Nature, plant: Plant, ticks: seq<Tick>)
    requires agent.policy.Valid() && cfg.batteryCapacityKWh > 0.0
    requires ticks != []
    ensures var first := PlantInterval(agent, hp, cfg, nature, plant, ticks[0]);
            EverOpens(agent, hp, cfg, nature, plant, ticks) <==>
            || OpensNow(cfg, plant, ticks[0])
            || (first.ending.Running? && EverOpens(agent, hp, cfg, nature, first.plant, ticks[1..]))
  {
    hide *;
    var first := PlantInterval(agent, hp, cfg, nature, plant, ticks[0]);
    ShiftedAt(agent, hp, cfg, nature, plant, ticks, 0, 0.0);
    EverAt(agent, hp, cfg, nature, plant, ticks, 0, 0.0);
    if EverOpens(agent, hp, cfg, nature, plant, ticks) {
      var n := WhereOpens(agent, hp, cfg, nature, plant, ticks);
      ShiftedAt(agent, hp, cfg, nature, plant, ticks, n, 0.0);
      if n > 0 && first.ending.Running? {
        EverAt(agent, hp, cfg, nature, first.plant, ticks[1..], n - 1, 0.0);
      }
    }
    if first.ending.Running? && EverOpens(agent, hp, cfg, nature, first.plant, ticks[1..]) {
      var n := WhereOpens(agent, hp, cfg, nature, first.plant, ticks[1..]);
      ShiftedAt(agent, hp, cfg, nature, plant, ticks, n + 1, 0.0);
      EverAt(agent, hp, cfg, nature, plant, ticks, n + 1, 0.0);
    }
  }

  /** So is whether it ever sinks. */
  lemma EverSinksUnfolds(
    agent: Agent, hp: HealthPolicy, cfg: Config, nature: Nature, plant: Plant, ticks: seq<Tick>, floor: real)
    requires agent.policy.Valid() && cfg.batteryCapacityKWh > 0.0
    requires ticks != []
    ensures var first := PlantInterval(agent, hp, cfg, nature, plant, ticks[0]);
            EverSinks(agent, hp, cfg, nature, plant, ticks, floor) <==>
            || (OpensNow(cfg, plant, ticks[0]) && StaleCharge(agent, cfg, plant) < floor)
            || (first.ending.Running? && EverSinks(agent, hp, cfg, nature, first.plant, ticks[1..], floor))
  {
    hide *;
    var first := PlantInterval(agent, hp, cfg, nature, plant, ticks[0]);
    ShiftedAt(agent, hp, cfg, nature, plant, ticks, 0, floor);
    EverAt(agent, hp, cfg, nature, plant, ticks, 0, floor);
    if EverSinks(agent, hp, cfg, nature, plant, ticks, floor) {
      var n := WhereSinks(agent, hp, cfg, nature, plant, ticks, floor);
      ShiftedAt(agent, hp, cfg, nature, plant, ticks, n, floor);
      if n > 0 && first.ending.Running? {
        EverAt(agent, hp, cfg, nature, first.plant, ticks[1..], n - 1, floor);
      }
    }
    if first.ending.Running? && EverSinks(agent, hp, cfg, nature, first.plant, ticks[1..], floor) {
      var n := WhereSinks(agent, hp, cfg, nature, first.plant, ticks[1..], floor);
      ShiftedAt(agent, hp, cfg, nature, plant, ticks, n + 1, floor);
      EverAt(agent, hp, cfg, nature, plant, ticks, n + 1, floor);
    }
  }

  lemma WhereOpens(agent: Agent, hp: HealthPolicy, cfg: Config, nature: Nature, plant: Plant, ticks: seq<Tick>)
    returns (n: nat)
    requires agent.policy.Valid() && cfg.batteryCapacityKWh > 0.0
    requires EverOpens(agent, hp, cfg, nature, plant, ticks)
    ensures n < |ticks| && OpensAt(agent, hp, cfg, nature, plant, ticks, n)
  {
    hide OpensAt;
    n :| 0 <= n < |ticks| && OpensAt(agent, hp, cfg, nature, plant, ticks, n);
  }

  lemma WhereSinks(
    agent: Agent, hp: HealthPolicy, cfg: Config, nature: Nature, plant: Plant, ticks: seq<Tick>, floor: real)
    returns (n: nat)
    requires agent.policy.Valid() && cfg.batteryCapacityKWh > 0.0
    requires EverSinks(agent, hp, cfg, nature, plant, ticks, floor)
    ensures n < |ticks| && SinksAt(agent, hp, cfg, nature, plant, ticks, n, floor)
  {
    hide SinksAt;
    n :| 0 <= n < |ticks| && SinksAt(agent, hp, cfg, nature, plant, ticks, n, floor);
  }

  lemma EverAt(
    agent: Agent, hp: HealthPolicy, cfg: Config, nature: Nature, plant: Plant, ticks: seq<Tick>, n: nat, floor: real)
    requires agent.policy.Valid() && cfg.batteryCapacityKWh > 0.0
    requires n < |ticks|
    ensures OpensAt(agent, hp, cfg, nature, plant, ticks, n) ==> EverOpens(agent, hp, cfg, nature, plant, ticks)
    ensures SinksAt(agent, hp, cfg, nature, plant, ticks, n, floor)
            ==> EverSinks(agent, hp, cfg, nature, plant, ticks, floor)
  {
    hide OpensAt, SinksAt;
  }

  lemma ShiftedAt(
    agent: Agent, hp: HealthPolicy, cfg: Config, nature: Nature, plant: Plant, ticks: seq<Tick>, n: nat, floor: real)
    requires agent.policy.Valid() && cfg.batteryCapacityKWh > 0.0
    requires n < |ticks|
    ensures OpensAt(agent, hp, cfg, nature, plant, ticks, 0) <==> OpensNow(cfg, plant, ticks[0])
    ensures SinksAt(agent, hp, cfg, nature, plant, ticks, 0, floor)
            <==> OpensNow(cfg, plant, ticks[0]) && StaleCharge(agent, cfg, plant) < floor
    ensures n > 0 ==>
              var first := PlantInterval(agent, hp, cfg, nature, plant, ticks[0]);
              && (OpensAt(agent, hp, cfg, nature, plant, ticks, n) <==>
                  first.ending.Running? && OpensAt(agent, hp, cfg, nature, first.plant, ticks[1..], n - 1))
              && (SinksAt(agent, hp, cfg, nature, plant, ticks, n, floor) <==>
                  first.ending.Running? && SinksAt(agent, hp, cfg, nature, first.plant, ticks[1..], n - 1, floor))
  {
    PlantAtUnfolds(agent, hp, cfg, nature, plant, ticks, if n > 0 then n - 1 else 0);
    hide PlantInterval, PlantAt, OpensNow, StaleCharge;
  }

  /** Over any number of intervals from any sound plant, on any schedule and whatever befalls them: some
      command is decided from another charge than the battery's if and only if the run comes to an
      interval that comes open; and some command takes the charge below a floor, at most the reserve,
      that the battery starts out above, if and only if it comes to one that sinks it. */
  lemma {:induction false} LoopBreaksExactly(
    agent: Agent, hp: HealthPolicy, cfg: Config, nature: Nature, plant: Plant, ticks: seq<Tick>, floor: real)
    requires cfg.Valid() && nature.Lawful() && Wired(agent, cfg)
    requires PlantSound(agent, cfg, nature, plant)
    requires floor <= MINIMUM_DISCHARGE_SOC_PERCENT && floor <= plant.sim.batterySOCPercent
    ensures agent.policy.Valid()
    ensures var e := PlantLoop(agent, hp, cfg, nature, plant, ticks);
            && (AnyOpen(e.applied) <==> EverOpens(agent, hp, cfg, nature, plant, ticks))
            && (AnyBelow(e.applied, floor) <==> EverSinks(agent, hp, cfg, nature, plant, ticks, floor))
            && (!AnyBelow(e.applied, floor) ==> floor <= e.plant.sim.batterySOCPercent)
    decreases |ticks|
  {
    hide *;
    PolicyIsValid(agent, cfg);
    PlantLoopUnfolds(agent, hp, cfg, nature, plant, ticks);
    if ticks == [] {
      NeverBreaks(agent, hp, cfg, nature, plant, floor);
    } else {
      var first := PlantInterval(agent, hp, cfg, nature, plant, ticks[0]);
      EverOpensUnfolds(agent, hp, cfg, nature, plant, ticks);
      EverSinksUnfolds(agent, hp, cfg, nature, plant, ticks, floor);
      FloorBreaksExactly(agent, hp, cfg, nature, plant, ticks[0], floor);
      PlantStaysSound(agent, hp, cfg, nature, plant, ticks[0]);
      if first.ending.Running? {
        var rest := PlantLoop(agent, hp, cfg, nature, first.plant, ticks[1..]);
        AnyInEither(first.applied, rest.applied, floor);
        if AnyBelow(first.applied, floor) {
          SoundParts(agent, cfg, nature, first.plant);
          ScaleStartsAtZero(first.plant.sim.batterySOCPercent);
          LoopBreaksExactly(agent, hp, cfg, nature, first.plant, ticks[1..], 0.0);
        } else {
          LoopBreaksExactly(agent, hp, cfg, nature, first.plant, ticks[1..], floor);
        }
      }
    }
  }

  lemma NeverBreaks(agent: Agent, hp: HealthPolicy, cfg: Config, nature: Nature, plant: Plant, floor: real)
    requires agent.policy.Valid() && cfg.batteryCapacityKWh > 0.0
    ensures !AnyOpen([]) && !AnyBelow([], floor)
    ensures !EverOpens(agent, hp, cfg, nature, plant, []) && !EverSinks(agent, hp, cfg, nature, plant, [], floor)
  {
  }

  lemma ScaleStartsAtZero(soc: real)
    requires OnScale(soc)
    ensures 0.0 <= soc && 0.0 <= MINIMUM_DISCHARGE_SOC_PERCENT
  {
  }

  /** The reserve over a whole run of the program, from any intact database, on any valid schedule and
      whatever befalls it: every command is decided from the charge the battery has, except when the run
      comes to an interval that comes open; and the charge goes below the reserve, or below where it
      started if that was lower, exactly when the run comes to one whose old command sinks it. */
  lemma RunBreaksExactly(
    agent: Agent, hp: HealthPolicy, cfg: Config, nature: Nature, db: Database, ticks: seq<Tick>)
    requires cfg.Valid() && nature.Lawful() && Wired(agent, cfg) && Intact(db)
    ensures agent.policy.Valid() && Restored(cfg, db).batteryCapacityKWh > 0.0
    ensures var restored := Restored(cfg, db);
            var plant := StartedPlant(cfg, nature, db);
            var e := PlantLoop(agent, hp, restored, nature, plant, ticks);
            var floor := Min(plant.sim.batterySOCPercent, MINIMUM_DISCHARGE_SOC_PERCENT);
            && (AnyOpen(e.applied) <==> EverOpens(agent, hp, restored, nature, plant, ticks))
            && (AnyBelow(e.applied, floor) <==> EverSinks(agent, hp, restored, nature, plant, ticks, floor))
            && (!AnyBelow(e.applied, floor) ==> floor <= e.plant.sim.batterySOCPercent)
  {
    hide *;
    var restored := Restored(cfg, db);
    var plant := StartedPlant(cfg, nature, db);
    StartedPlantIsSound(agent, cfg, nature, db);
    PolicyIsValid(agent, restored);
    MinIsLower(plant.sim.batterySOCPercent);
    LoopBreaksExactly(agent, hp, restored, nature, plant, ticks,
                      Min(plant.sim.batterySOCPercent, MINIMUM_DISCHARGE_SOC_PERCENT));
  }

  lemma MinIsLower(soc: real)
    ensures Min(soc, MINIMUM_DISCHARGE_SOC_PERCENT) <= soc
    ensures Min(soc, MINIMUM_DISCHARGE_SOC_PERCENT) <= MINIMUM_DISCHARGE_SOC_PERCENT
  {
  }
}
