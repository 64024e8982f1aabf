/** Time in the closed loop: profile days, the clock and the simulator in lockstep, and a run on
    which nothing goes wrong. */
module Timeline {
  import opened Basics
  import opened Observations
  import opened LatestState
  import opened Health
  import opened ControlPolicy
  import opened Classifier
  import opened Storage
  import opened Integrity
  import opened Runtime
  import opened Safety
  import opened Progress
  import opened HealthHistory
  import opened Battery
  import opened Faults
  import opened Simulator
  import opened ClosedLoop

  // ---------------------------------------------------------------------------------------------
  // Profile days

  function IntervalsPerDay(cfg: Config): int
    requires cfg.interval > 0
  {
    SIMULATION_DURATION / cfg.interval
  }

  /** Complete profile days behind the given step. */
  function DaysBefore(cfg: Config, step: nat): int
    requires cfg.interval > 0 && IntervalsPerDay(cfg) > 0
  {
    if step == 0 then 0 else (step - 1) / IntervalsPerDay(cfg)
  }

  /** The day's three factors are the last three draws, in the order sun, load, price, each scaled to its range. */
  predicate Drawn(nature: Nature, s: SimState) {
    && s.drawn >= 3
    && s.dailyPVFactor == 0.8 + 0.2 * nature.random(s.drawn - 3)
    && s.dailyLoadFactor == 0.85 + 0.3 * nature.random(s.drawn - 2)
    && s.dailyPriceFactor == 0.9 + 0.2 * nature.random(s.drawn - 1)
  }

  lemma StartedDayIsDrawn(nature: Nature, s: SimState)
    ensures Drawn(nature, StartedDay(nature, s))
    ensures StartedDay(nature, s).drawn == s.drawn + 3
  {
  }

  /** The current profile day's end, the number of random draws so far and the factors follow from the step. */
  predicate OnSchedule(cfg: Config, nature: Nature, s: SimState)
    requires cfg.interval > 0 && IntervalsPerDay(cfg) > 0
  {
    && s.dayEnd.ns == cfg.start.ns + SIMULATION_DURATION * (1 + DaysBefore(cfg, s.step))
    && s.drawn == 3 * (1 + DaysBefore(cfg, s.step))
    && Drawn(nature, s)
  }

  lemma WholeDays(cfg: Config)
    requires cfg.Valid()
    ensures IntervalsPerDay(cfg) > 0
    ensures IntervalsPerDay(cfg) * cfg.interval == SIMULATION_DURATION
  {
    IntervalFitsDay(cfg);
    hide ScheduleValid;
  }

  /** Counting steps in groups of `n`. */
  lemma NextGroup(n: int, k: nat, q: int)
    requires n > 0
    requires q == if k == 0 then 0 else (k - 1) / n
    ensures k / n == if k < n * (1 + q) then q else q + 1
    ensures k < n * (1 + k / n)
    ensures n * (k / n) <= k
    ensures k <= n * (1 + q)
  {
    if k > 0 {
      var r := (k - 1) % n;
      assert k - 1 == n * q + r;
      if r == n - 1 {
        assert k == n * (q + 1);
        DivisionIsUnique(n, k, q + 1, 0);
      } else {
        DivisionIsUnique(n, k, q, r + 1);
      }
    }
  }

  lemma DivisionIsUnique(n: int, k: int, q: int, r: int)
    requires n > 0 && k == n * q + r && 0 <= r < n
    ensures k / n == q
  {
    var d := k / n - q;
    assert d * n == r - k % n;
    Scaled(d, 1, n);
    Scaled(-1, d, n);
  }

  /** Handing out step k leaves the day end at start + 24h * (1 + (k - 1) div N), with the step's time
      inside that day and the three factors drawn once for every day so far. */
  lemma AdvanceKeepsSchedule(cfg: Config, nature: Nature, s: SimState)
    requires cfg.Valid() && Poised(cfg, nature, s)
    requires IntervalsPerDay(cfg) > 0 && OnSchedule(cfg, nature, s)
    ensures var next := Advanced(cfg, nature, s);
            && OnSchedule(cfg, nature, next)
            && next.dayEnd.ns - SIMULATION_DURATION <= next.currentTime.ns < next.dayEnd.ns
  {
    var n := IntervalsPerDay(cfg);
    var q := DaysBefore(cfg, s.step);
    WholeDays(cfg);
    NextGroup(n, s.step, q);
    DayArithmetic(cfg, n, s.step, q);
    DayArithmetic(cfg, n, s.step, s.step / n);
    AdvancedDay(cfg, nature, s);
    PoisedTime(cfg, nature, s);
    SimulationDay();
    if s.currentTime.ns >= s.dayEnd.ns {
      assert s.step == n * (1 + q);
    }
    hide Advanced, InstantOf, Config.Valid, Poised, IntervalsPerDay, Drawn;
  }

  lemma SimulationDay()
    ensures SIMULATION_DURATION == 86_400_000_000_000
  {
  }

  lemma PoisedTime(cfg: Config, nature: Nature, s: SimState)
    requires Poised(cfg, nature, s)
    ensures s.currentTime == Time(InstantOf(cfg, s.step + 1), true)
  {
  }

  /** A new day begins exactly when the old one is over. */
  lemma AdvancedDay(cfg: Config, nature: Nature, s: SimState)
    ensures var next := Advanced(cfg, nature, s);
            && next.currentTime == s.currentTime
            && next.step == s.step + 1
            && if s.currentTime.ns < s.dayEnd.ns then
                 next.dayEnd == s.dayEnd && next.drawn == s.drawn && (Drawn(nature, s) ==> Drawn(nature, next))
               else
                 && next.dayEnd.ns == s.currentTime.ns + SIMULATION_DURATION
                 && next.drawn == s.drawn + 3
                 && Drawn(nature, next)
  {
    StartedDayIsDrawn(nature, s);
    hide NaturalSample, RandomFactor;
  }

  lemma DayArithmetic(cfg: Config, n: int, step: int, q: int)
    requires cfg.interval > 0 && n * cfg.interval == SIMULATION_DURATION
    ensures InstantOf(cfg, step + 1) == cfg.start.ns + step * cfg.interval
    ensures SIMULATION_DURATION * (1 + q) == n * (1 + q) * cfg.interval
    ensures SIMULATION_DURATION * q == n * q * cfg.interval
    ensures step < n * (1 + q) <==> step * cfg.interval < SIMULATION_DURATION * (1 + q)
    ensures n * q <= step <==> SIMULATION_DURATION * q <= step * cfg.interval
  {
    Scaled(n * (1 + q), step, cfg.interval);
    Scaled(step, n * q, cfg.interval);
    assert n * (1 + q) * cfg.interval == (n * cfg.interval) * (1 + q);
    assert n * q * cfg.interval == (n * cfg.interval) * q;
  }

  lemma Scaled(a: int, b: int, c: int)
    requires c > 0
    ensures a > b <==> a * c > b * c
    ensures a >= b <==> a * c >= b * c
  {
    if a > b {
      assert (a - b) * c > 0;
    } else {
      assert (b - a) * c >= 0;
    }
    if a >= b {
      assert (a - b) * c >= 0;
    } else {
      assert (b - a) * c > 0;
    }
  }

  predicate OnTime(agent: Agent, cfg: Config, nature: Nature, plant: Plant)
    requires cfg.interval > 0 && IntervalsPerDay(cfg) > 0
  {
    PlantSound(agent, cfg, nature, plant) && OnSchedule(cfg, nature, plant.sim)
  }

  lemma PlantIntervalOnTime(agent: Agent, hp: HealthPolicy, cfg: Config, nature: Nature, plant: Plant, tick: Tick)
    requires cfg.Valid() && nature.Lawful() && Wired(agent, cfg)
    requires IntervalsPerDay(cfg) > 0 && OnTime(agent, cfg, nature, plant)
    ensures agent.policy.Valid()
    ensures var e := PlantInterval(agent, hp, cfg, nature, plant, tick);
            e.ending.Running? ==>
              OnTime(agent, cfg, nature, e.plant) && e.plant.sim.step == plant.sim.step + 1
  {
    hide *;
    PolicyIsValid(agent, cfg);
    var envelope := HandedEnvelope(cfg, nature, plant.sim);
    var step := Step(envelope, tick.now, tick.fate);
    OnTimeParts(agent, cfg, nature, plant);
    PlantAdvances(agent, hp, cfg, nature, plant, tick);
    AdvancesMeans(agent, hp, cfg, nature, plant, tick, envelope);
    PlantStaysSound(agent, hp, cfg, nature, plant, tick);
    IntervalDispatch(agent, hp, plant.memory, plant.db, step);
    SinkRefusal(agent, hp, plant.memory, plant.db, step);
    AdvanceKeepsSchedule(cfg, nature, plant.sim);
    CompletedKeepsSchedule(cfg, nature, Advanced(cfg, nature, plant.sim),
                           CommandOf(Interval(agent, hp, plant.memory, plant.db, step).sent));
    var after := PlantInterval(agent, hp, cfg, nature, plant, tick);
    if after.ending.Running? {
      OnTimeFrom(agent, cfg, nature, after.plant);
    }
  }

  lemma OnTimeParts(agent: Agent, cfg: Config, nature: Nature, plant: Plant)
    requires cfg.interval > 0 && IntervalsPerDay(cfg) > 0
    requires OnTime(agent, cfg, nature, plant)
    ensures PlantSound(agent, cfg, nature, plant) && OnSchedule(cfg, nature, plant.sim)
    ensures Poised(cfg, nature, plant.sim) && Intact(plant.db) && Refines(plant.memory, plant.db, agent.deviceID)
  {
    hide Poised, Intact, Refines, OnSchedule, IntervalsPerDay;
  }

  lemma OnTimeFrom(agent: Agent, cfg: Config, nature: Nature, plant: Plant)
    requires cfg.interval > 0 && IntervalsPerDay(cfg) > 0
    requires PlantSound(agent, cfg, nature, plant) && OnSchedule(cfg, nature, plant.sim)
    ensures OnTime(agent, cfg, nature, plant)
  {
    hide PlantSound, OnSchedule, IntervalsPerDay;
  }

  lemma CompletedKeepsSchedule(cfg: Config, nature: Nature, s: SimState, command: Option<Command>)
    requires cfg.batteryCapacityKWh > 0.0
    requires cfg.interval > 0 && IntervalsPerDay(cfg) > 0
    requires OnSchedule(cfg, nature, s)
    ensures OnSchedule(cfg, nature, Completed(cfg, s, command).0)
  {
    hide NextBatterySOCPercent, CommandError;
  }

  lemma {:induction false} PlantLoopOnTime(
    agent: Agent, hp: HealthPolicy, cfg: Config, nature: Nature, plant: Plant, ticks: seq<Tick>)
    requires cfg.Valid() && nature.Lawful() && Wired(agent, cfg)
    requires IntervalsPerDay(cfg) > 0 && OnTime(agent, cfg, nature, plant)
    ensures agent.policy.Valid()
    ensures var e := PlantLoop(agent, hp, cfg, nature, plant, ticks);
            e.ending.Running? ==>
              OnTime(agent, cfg, nature, e.plant) && e.plant.sim.step == plant.sim.step + |ticks|
    decreases |ticks|
  {
    PolicyIsValid(agent, cfg);
    hide *;
    PlantLoopUnfolds(agent, hp, cfg, nature, plant, ticks);
    if ticks != [] {
      var first := PlantInterval(agent, hp, cfg, nature, plant, ticks[0]);
      PlantIntervalOnTime(agent, hp, cfg, nature, plant, ticks[0]);
      if first.ending.Running? {
        PlantLoopOnTime(agent, hp, cfg, nature, first.plant, ticks[1..]);
      }
    }
  }

  /** Step k of a simulator: an observation is handed out without a pending error, at start +
      (k - 1) * interval, inside a profile day that ends at start + 24h * (1 + (k - 1) div N), with
      three factors drawn for every day so far. The sample behind it is named after device and instant, reports
      the battery's charge, and otherwise depends on the instant and on the day's three draws alone. */
  predicate HandsOutOnTime(cfg: Config, nature: Nature, s: SimState, k: nat)
    requires cfg.interval > 0 && IntervalsPerDay(cfg) > 0
  {
    var days := (k - 1) / IntervalsPerDay(cfg);
    var (next, handover) := Next(cfg, nature, s);
    && handover.Handover?
    && next.step == k
    && next.currentTime == Time(cfg.start.ns + (k - 1) * cfg.interval, true)
    && next.pending.eventTime == next.currentTime
    && next.dayEnd.ns == cfg.start.ns + SIMULATION_DURATION * (1 + days)
    && next.dayEnd.ns - SIMULATION_DURATION <= next.currentTime.ns < next.dayEnd.ns
    && next.drawn == 3 * (1 + days)
    && days >= 0
    && next.pending.eventID == nature.eventID(cfg.deviceID, next.currentTime.ns)
    && next.pending.batterySOCPercent == s.batterySOCPercent
    && next.pending.pvPowerKW == PVPowerKW(cfg, nature, next.currentTime, 0.8 + 0.2 * nature.random(3 * days))
    && next.pending.loadPowerKW == LoadPowerKW(cfg, nature, next.currentTime, 0.85 + 0.3 * nature.random(3 * days + 1))
    && next.pending.priceEURPerKWh ==
       PriceEURPerKWh(cfg, nature, next.currentTime, 0.9 + 0.2 * nature.random(3 * days + 2))
  }

  lemma OnTimeHandsOut(agent: Agent, cfg: Config, nature: Nature, plant: Plant)
    requires cfg.Valid() && nature.Lawful() && IntervalsPerDay(cfg) > 0
    requires OnTime(agent, cfg, nature, plant)
    ensures HandsOutOnTime(cfg, nature, plant.sim, plant.sim.step + 1)
  {
    var next := Advanced(cfg, nature, plant.sim);
    hide *;
    PositiveInterval(cfg);
    OnTimeParts(agent, cfg, nature, plant);
    HandsOut(cfg, nature, plant.sim);
    PoisedTime(cfg, nature, plant.sim);
    AdvancedDay(cfg, nature, plant.sim);
    AdvanceKeepsSchedule(cfg, nature, plant.sim);
    AdvancedSample(cfg, nature, plant.sim);
    OnTimeIf(cfg, nature, plant.sim, next);
  }

  lemma OnTimeIf(cfg: Config, nature: Nature, s: SimState, next: SimState)
    requires cfg.interval > 0 && IntervalsPerDay(cfg) > 0
    requires Next(cfg, nature, s).0 == next && Next(cfg, nature, s).1.Handover?
    requires next.step == s.step + 1 && next.currentTime == Time(InstantOf(cfg, s.step + 1), true)
    requires next.pending.eventTime == next.currentTime
    requires OnSchedule(cfg, nature, next)
    requires next.dayEnd.ns - SIMULATION_DURATION <= next.currentTime.ns < next.dayEnd.ns
    requires next.pending.eventID == nature.eventID(cfg.deviceID, next.currentTime.ns)
    requires next.pending.batterySOCPercent == s.batterySOCPercent
    requires next.pending.pvPowerKW == PVPowerKW(cfg, nature, next.currentTime, next.dailyPVFactor)
    requires next.pending.loadPowerKW == LoadPowerKW(cfg, nature, next.currentTime, next.dailyLoadFactor)
    requires next.pending.priceEURPerKWh == PriceEURPerKWh(cfg, nature, next.currentTime, next.dailyPriceFactor)
    ensures HandsOutOnTime(cfg, nature, s, s.step + 1)
  {
    assert s.step / IntervalsPerDay(cfg) >= 0;
    hide Next, IntervalsPerDay, PVPowerKW, LoadPowerKW, PriceEURPerKWh;
  }

  lemma AdvancedSample(cfg: Config, nature: Nature, s: SimState)
    ensures var next := Advanced(cfg, nature, s);
            && next.pending.eventTime == next.currentTime
            && next.pending.eventID == nature.eventID(cfg.deviceID, next.currentTime.ns)
            && next.pending.batterySOCPercent == s.batterySOCPercent
            && next.pending.pvPowerKW == PVPowerKW(cfg, nature, next.currentTime, next.dailyPVFactor)
            && next.pending.loadPowerKW == LoadPowerKW(cfg, nature, next.currentTime, next.dailyLoadFactor)
            && next.pending.priceEURPerKWh == PriceEURPerKWh(cfg, nature, next.currentTime, next.dailyPriceFactor)
  {
    hide PVPowerKW, LoadPowerKW, PriceEURPerKWh;
  }

  /** Every interval of every run, as long as it goes on, is handed out on time, and every command is
      taken: `Next` and `Apply` alternate, whatever is observed and whatever the clock says. */
  lemma EveryIntervalOnTime(
    agent: Agent, hp: HealthPolicy, cfg: Config, nature: Nature, db: Database, ticks: seq<Tick>)
    requires cfg.Valid() && nature.Lawful() && Wired(agent, cfg) && Intact(db)
    ensures agent.policy.Valid() && Restored(cfg, db).interval > 0 && IntervalsPerDay(Restored(cfg, db)) > 0
    ensures var restored := Restored(cfg, db);
            var e := PlantLoop(agent, hp, restored, nature, StartedPlant(cfg, nature, db), ticks);
            e.ending.Running? ==> HandsOutOnTime(restored, nature, e.plant.sim, |ticks| + 1)
  {
    hide *;
    var restored := Restored(cfg, db);
    var plant := StartedPlant(cfg, nature, db);
    PolicyIsValid(agent, cfg);
    RestoredConfigIsValid(cfg, db);
    WholeDays(restored);
    StartedPlantIsSound(agent, cfg, nature, db);
    StartsOnSchedule(agent, cfg, nature, db);
    PlantLoopOnTime(agent, hp, restored, nature, plant, ticks);
    var e := PlantLoop(agent, hp, restored, nature, plant, ticks);
    if e.ending.Running? {
      OnTimeHandsOut(agent, restored, nature, e.plant);
    }
  }

  lemma StartsOnSchedule(agent: Agent, cfg: Config, nature: Nature, db: Database)
    requires cfg.Valid() && Restored(cfg, db).Valid() && IntervalsPerDay(Restored(cfg, db)) > 0
    requires PlantSound(agent, Restored(cfg, db), nature, StartedPlant(cfg, nature, db))
    ensures Restored(cfg, db).interval > 0
    ensures OnTime(agent, Restored(cfg, db), nature, StartedPlant(cfg, nature, db))
  {
    hide Intact, SnapshotOf, ScheduleValid, PlantSound;
  }

  // ---------------------------------------------------------------------------------------------
  // Lockstep with the instant clock

  /** The clock readings of a fast run: the start, then one interval more each time. */
  function InstantTicks(from: Time, interval: int, fates: seq<Fate>): seq<Tick>
    decreases |fates|
  {
    if fates == [] then []
    else [Tick(from, fates[0])] + InstantTicks(from.Add(interval), interval, fates[1..])
  }

  lemma {:induction false} InstantTickAt(from: Time, interval: int, fates: seq<Fate>, i: nat)
    requires i < |fates|
    ensures |InstantTicks(from, interval, fates)| == |fates|
    ensures InstantTicks(from, interval, fates)[i] == Tick(from.Add(i * interval), fates[i])
    decreases |fates|
  {
    if i > 0 {
      InstantTickAt(from.Add(interval), interval, fates[1..], i - 1);
      assert interval + (i - 1) * interval == i * interval;
    } else if |fates| > 1 {
      InstantTickAt(from.Add(interval), interval, fates[1..], 0);
    }
  }

  /** On a fast run the clock and the simulator never drift: at the i-th interval the run comes to,
      both read start + i * interval, and the simulator has an observation ready. */
  lemma Lockstep(
    agent: Agent, hp: HealthPolicy, cfg: Config, nature: Nature, db: Database, fates: seq<Fate>, i: nat)
    requires cfg.Valid() && nature.Lawful() && Wired(agent, cfg) && Intact(db)
    requires i < |fates|
    ensures agent.policy.Valid()
    ensures var ticks := InstantTicks(Time(cfg.start.ns, true), cfg.interval, fates);
            var restored := Restored(cfg, db);
            && |ticks| == |fates|
            && ticks[i] == Tick(Time(cfg.start.ns + i * cfg.interval, true), fates[i])
            && var e := PlantLoop(agent, hp, restored, nature, StartedPlant(cfg, nature, db), ticks[..i]);
               e.ending.Running? ==>
                 && Next(restored, nature, e.plant.sim).1.Handover?
                 && Next(restored, nature, e.plant.sim).0.currentTime == ticks[i].now
  {
    var ticks := InstantTicks(Time(cfg.start.ns, true), cfg.interval, fates);
    InstantTickAt(Time(cfg.start.ns, true), cfg.interval, fates, i);
    RestoredConfigIsValid(cfg, db);
    EveryIntervalOnTime(agent, hp, cfg, nature, db, ticks[..i]);
    hide PlantLoop, Restored, StartedPlant, Next, Intact, Config.Valid, Nature.Lawful, InstantTicks, IntervalsPerDay;
  }

  // ---------------------------------------------------------------------------------------------
  // A run on which nothing goes wrong

  /** The record and health of an undisturbed interval that accepts its event on time. */
  lemma AcceptedOnTime(agent: Agent, hp: HealthPolicy, memory: Memory, db: Database, step: Step)
    requires agent.policy.Valid() && !Blank(agent.deviceID) && Intact(db) && Refines(memory, db, agent.deviceID)
    requires step.fate.Completes? && step.now.Durable()
    requires EventOf(step.envelope).Some? && !Foreign(agent.deviceID, step.envelope)
    requires EventOf(step.envelope).value.eventID !in db.telemetry
    requires Supersedes(EventOf(step.envelope).value, memory.state)
    requires !Late(agent, step.envelope)
    ensures var e := Interval(agent, hp, memory, db, step);
            && e.ending.Running?
            && |e.records| == 1
            && e.records[0].disposition.Accepted?
            && e.records[0].command == Some(agent.policy.Decide(StateOf(EventOf(step.envelope).value)))
            && e.records[0].healthStatus.Online?
            && e.records[0].healthTransitionAt == e.memory.health.transitionTime
            && e.memory.health.status.Online?
            && e.memory.health.transitionTime ==
               (if memory.health.status.Online? && !memory.health.transitionTime.IsZero()
                then memory.health.transitionTime else ReceivedAtOrNow(step.envelope, step.now))
  {
    var input := Input(memory, hp, agent.policy.interval, step.envelope, step.now);
    var p := Process(agent, hp, memory, db, step.envelope, step.now, FailureOf(step.fate));
    AcceptedVerdict(input);
    LateMeans(agent, input);
    assert input.envelope == step.envelope && input.now == step.now && input.interval == agent.policy.interval;
    assert input.priorState == memory.state && input.priorHealth == memory.health;
    hide *;
    IntervalContinues(agent, hp, memory, db, step);
    IntervalCases(agent, hp, memory, db, step);
    ProcessMeaning(agent, hp, memory, db, step.envelope, step.now, FailureOf(step.fate));
    ProcessHealth(agent, hp, memory, db, step.envelope, step.now, FailureOf(step.fate));
    CompletedDelivery(agent, db, p, step);
    AcceptedDelivery(agent, memory, db, p, step);
  }

  lemma AcceptedVerdict(input: ClassifyInput)
    requires EventOf(input.envelope).Some? && Supersedes(EventOf(input.envelope).value, input.priorState)
    ensures Classify(input).Classified? ==>
              var r := Classify(input).result;
              var at := ReceivedAtOrNow(input.envelope, input.now);
              && r.disposition.Accepted?
              && (input.envelope.value.receivedAt.Sub(EventOf(input.envelope).value.eventTime) <= input.interval ==>
                    && r.health.status.Online?
                    && r.health.transitionTime ==
                       (if input.priorHealth.status.Online? && !input.priorHealth.transitionTime.IsZero()
                        then input.priorHealth.transitionTime else at))
  {
  }

  lemma AcceptedDelivery(agent: Agent, memory: Memory, db: Database, p: Processing, step: Step)
    requires agent.policy.Valid() && step.fate.Completes?
    requires p.processed.Committed? && p.processed.status.CommitStored?
    requires p.processed.outcome.health == p.memory.health
    requires EventOf(step.envelope).Some? && Supersedes(EventOf(step.envelope).value, memory.state)
    requires !Late(agent, step.envelope)
    requires StoresObservation(agent, memory.state, db, step.envelope, step.now, p.db, p.processed.outcome)
    ensures var e := Delivered(agent, db, p, step);
            && e.ending.Running?
            && e.memory == p.memory
            && |e.records| == 1
            && e.records[0].disposition.Accepted?
            && e.records[0].command == Some(agent.policy.Decide(StateOf(EventOf(step.envelope).value)))
            && e.records[0].healthStatus == p.memory.health.status
            && e.records[0].healthTransitionAt == p.memory.health.transitionTime
  {
    hide EventOf, Late, Policy.Decide;
  }

  predicate FineRecord(cfg: Config, r: Record) {
    && r.disposition.Accepted?
    && r.command.Some?
    && r.healthStatus.Online?
    && r.healthTransitionAt == Time(cfg.start.ns, true)
  }

  /** Storage knows the samples of the steps so far and nothing else, and the device has been online
      since the start. */
  ghost predicate Undisrupted(agent: Agent, cfg: Config, nature: Nature, plant: Plant) {
    && PlantSound(agent, cfg, nature, plant)
    && (if plant.sim.step == 0 then plant.memory == Memory(ZERO_STATE, ZERO_HEALTH)
        else
          && plant.memory.health.status.Online?
          && plant.memory.health.transitionTime == Time(cfg.start.ns, true)
          && plant.memory.state.updatedAt == Time(InstantOf(cfg, plant.sim.step), true))
    && StepNames(cfg, nature, plant.db, plant.sim.step)
  }

  /** Every stored event is the sample of a step up to the given one. */
  ghost predicate StepNames(cfg: Config, nature: Nature, db: Database, step: nat) {
    forall id :: id in db.telemetry ==> exists j: nat :: NamesStep(cfg, nature, id, j) && j <= step
  }

  predicate NamesStep(cfg: Config, nature: Nature, id: string, j: nat) {
    id == nature.eventID(cfg.deviceID, InstantOf(cfg, j))
  }

  function FineTick(cfg: Config, step: nat): Tick {
    Tick(Time(InstantOf(cfg, step), true), Completes)
  }

  /** Without faults the next sample is handed over on time, unknown to storage and newer than the state. */
  lemma FineHandover(agent: Agent, cfg: Config, nature: Nature, plant: Plant)
    requires cfg.Valid() && nature.Lawful() && nature.NamesApart() && Wired(agent, cfg) && cfg.faults == []
    requires Undisrupted(agent, cfg, nature, plant) && InstantOf(cfg, plant.sim.step + 1) != 0
    ensures var envelope := HandedEnvelope(cfg, nature, plant.sim);
            var event := EventOf(envelope);
            var at := Time(InstantOf(cfg, plant.sim.step + 1), true);
            && event.Some?
            && !Foreign(agent.deviceID, envelope)
            && !Late(agent, envelope)
            && ReceivedAtOrNow(envelope, at) == at
            && event.value.eventTime == at
            && NamesStep(cfg, nature, event.value.eventID, plant.sim.step + 1)
            && event.value.eventID !in plant.db.telemetry
            && Supersedes(event.value, plant.memory.state)
  {
    var next := Advanced(cfg, nature, plant.sim);
    var k := plant.sim.step + 1;
    assert FaultAt(cfg.faults, k).None?;
    HandsOut(cfg, nature, plant.sim);
    FullEvent(cfg.deviceID, next.pending, next.pending.eventTime);
    InstantsAdvance(cfg, plant.sim.step);
    var id := nature.eventID(cfg.deviceID, InstantOf(cfg, k));
    if id in plant.db.telemetry {
      var j: nat :| NamesStep(cfg, nature, id, j) && j <= plant.sim.step;
      InstantsDiffer(cfg, j, k);
      assert false;
    }
    hide EventOf, Advanced, ScheduleValid, Intact, Refines, Nature.Lawful, SoundFactors, NaturalSample, Blank;
  }

  lemma FineInterval(agent: Agent, hp: HealthPolicy, cfg: Config, nature: Nature, plant: Plant)
    requires cfg.Valid() && nature.Lawful() && nature.NamesApart() && Wired(agent, cfg) && cfg.faults == []
    requires Undisrupted(agent, cfg, nature, plant) && InstantOf(cfg, plant.sim.step + 1) != 0
    ensures agent.policy.Valid()
    ensures var e := PlantInterval(agent, hp, cfg, nature, plant, FineTick(cfg, plant.sim.step + 1));
            && e.ending.Running?
            && Undisrupted(agent, cfg, nature, e.plant)
            && e.plant.sim.step == plant.sim.step + 1
            && |e.records| == 1
            && FineRecord(cfg, e.records[0])
  {
    hide *;
    PolicyIsValid(agent, cfg);
    var k := plant.sim.step + 1;
    var tick := FineTick(cfg, k);
    var envelope := HandedEnvelope(cfg, nature, plant.sim);
    var step := Step(envelope, tick.now, tick.fate);
    var e := Interval(agent, hp, plant.memory, plant.db, step);
    var after := PlantInterval(agent, hp, cfg, nature, plant, tick);
    UndisruptedIsSound(agent, cfg, nature, plant);
    FineTickMeans(cfg, k);
    FineHandover(agent, cfg, nature, plant);
    PlantAdvances(agent, hp, cfg, nature, plant, tick);
    AdvancesMeans(agent, hp, cfg, nature, plant, tick, envelope);
    NewEventInterval(agent, hp, plant.memory, plant.db, step);
    AcceptedOnTime(agent, hp, plant.memory, plant.db, step);
    IntervalDispatch(agent, hp, plant.memory, plant.db, step);
    SoundFrom(agent, cfg, nature, after.plant);
    FineMemory(agent, cfg, nature, plant, e, EventOf(envelope).value);
    FineAgain(agent, cfg, nature, plant, after);
  }

  lemma FineTickMeans(cfg: Config, k: nat)
    ensures FineTick(cfg, k) == Tick(Time(InstantOf(cfg, k), true), Completes)
    ensures InstantOf(cfg, k) != 0 ==> FineTick(cfg, k).now.Durable()
    ensures ReachesSink(FineTick(cfg, k).fate)
  {
    hide InstantOf;
  }

  lemma UndisruptedIsSound(agent: Agent, cfg: Config, nature: Nature, plant: Plant)
    requires Undisrupted(agent, cfg, nature, plant)
    ensures PlantSound(agent, cfg, nature, plant)
    ensures Intact(plant.db) && Refines(plant.memory, plant.db, agent.deviceID)
  {
    hide Intact, Refines, Poised, NamesStep;
  }

  lemma FineAgain(agent: Agent, cfg: Config, nature: Nature, plant: Plant, after: PlantEffect)
    requires PlantSound(agent, cfg, nature, after.plant) && after.plant.sim.step == plant.sim.step + 1
    requires after.plant.memory.health.status.Online?
    requires after.plant.memory.health.transitionTime == Time(cfg.start.ns, true)
    requires after.plant.memory.state.updatedAt == Time(InstantOf(cfg, plant.sim.step + 1), true)
    requires StepNames(cfg, nature, after.plant.db, plant.sim.step + 1)
    requires |after.records| == 1 && after.records[0].disposition.Accepted? && after.records[0].command.Some?
    requires after.records[0].healthStatus.Online?
    requires after.records[0].healthTransitionAt == after.plant.memory.health.transitionTime
    ensures Undisrupted(agent, cfg, nature, after.plant)
    ensures FineRecord(cfg, after.records[0])
  {
    hide PlantSound, StepNames, InstantOf;
  }

  /** The runtime's side of an undisrupted plant after one more accepted sample. */
  lemma FineMemory(agent: Agent, cfg: Config, nature: Nature, plant: Plant, e: Effect, event: Telemetry)
    requires cfg.Valid() && Undisrupted(agent, cfg, nature, plant)
    requires event.eventTime == Time(InstantOf(cfg, plant.sim.step + 1), true)
    requires NamesStep(cfg, nature, event.eventID, plant.sim.step + 1)
    requires e.memory.state == StateOf(event)
    requires e.db.telemetry.Keys == plant.db.telemetry.Keys + {event.eventID}
    requires e.memory.health.transitionTime ==
             if plant.memory.health.status.Online? && !plant.memory.health.transitionTime.IsZero()
             then plant.memory.health.transitionTime else event.eventTime
    ensures e.memory.health.transitionTime == Time(cfg.start.ns, true)
    ensures e.memory.state.updatedAt == Time(InstantOf(cfg, plant.sim.step + 1), true)
    ensures StepNames(cfg, nature, e.db, plant.sim.step + 1)
  {
    hide *;
    UndisruptedMemory(agent, cfg, nature, plant);
    NewName(cfg, nature, plant.db, e.db, plant.sim.step, event.eventID);
    StateTime(event);
  }

  lemma StateTime(event: Telemetry)
    ensures StateOf(event).updatedAt == event.eventTime
  {
  }

  lemma UndisruptedMemory(agent: Agent, cfg: Config, nature: Nature, plant: Plant)
    requires cfg.Valid() && Undisrupted(agent, cfg, nature, plant)
    ensures StepNames(cfg, nature, plant.db, plant.sim.step)
    ensures var health := plant.memory.health;
            if health.status.Online? && !health.transitionTime.IsZero()
            then health.transitionTime == Time(cfg.start.ns, true)
            else plant.sim.step == 0 && Time(InstantOf(cfg, plant.sim.step + 1), true) == Time(cfg.start.ns, true)
  {
    hide PlantSound, StepNames, ScheduleValid, Blank;
  }

  lemma NewName(cfg: Config, nature: Nature, before: Database, after: Database, step: nat, name: string)
    requires StepNames(cfg, nature, before, step) && NamesStep(cfg, nature, name, step + 1)
    requires after.telemetry.Keys == before.telemetry.Keys + {name}
    ensures StepNames(cfg, nature, after, step + 1)
  {
    forall id | id in after.telemetry
      ensures exists j: nat :: NamesStep(cfg, nature, id, j) && j <= step + 1
    {
      if id in before.telemetry {
        var j: nat :| NamesStep(cfg, nature, id, j) && j <= step;
      } else {
        assert NamesStep(cfg, nature, id, step + 1);
      }
    }
    hide NamesStep;
  }

  function FineTicks(cfg: Config, step: nat, n: nat): seq<Tick>
    decreases n
  {
    if n == 0 then [] else [FineTick(cfg, step + 1)] + FineTicks(cfg, step + 1, n - 1)
  }

  lemma {:induction false} FineLoop(
    agent: Agent, hp: HealthPolicy, cfg: Config, nature: Nature, plant: Plant, n: nat)
    requires cfg.Valid() && nature.Lawful() && nature.NamesApart() && Wired(agent, cfg) && cfg.faults == []
    requires Undisrupted(agent, cfg, nature, plant)
    requires forall k :: plant.sim.step < k <= plant.sim.step + n ==> InstantOf(cfg, k) != 0
    ensures agent.policy.Valid()
    ensures var e := PlantLoop(agent, hp, cfg, nature, plant, FineTicks(cfg, plant.sim.step, n));
            && e.ending.Running?
            && |e.records| == n
            && (forall i :: 0 <= i < n ==> FineRecord(cfg, e.records[i]))
    decreases n
  {
    hide *;
    PolicyIsValid(agent, cfg);
    var ticks := FineTicks(cfg, plant.sim.step, n);
    FineTicksUnfold(cfg, plant.sim.step, n);
    PlantLoopUnfolds(agent, hp, cfg, nature, plant, ticks);
    if n > 0 {
      FineInterval(agent, hp, cfg, nature, plant);
      var first := PlantInterval(agent, hp, cfg, nature, plant, ticks[0]);
      FineLoop(agent, hp, cfg, nature, first.plant, n - 1);
      var rest := PlantLoop(agent, hp, cfg, nature, first.plant, ticks[1..]);
      var records := first.records + rest.records;
      forall i | 0 <= i < n ensures FineRecord(cfg, records[i]) {
        assert records[i] == if i == 0 then first.records[0] else rest.records[i - 1];
      }
    }
  }

  lemma FineTicksUnfold(cfg: Config, step: nat, n: nat)
    ensures n == 0 ==> FineTicks(cfg, step, n) == []
    ensures n > 0 ==>
              && FineTicks(cfg, step, n) != []
              && FineTicks(cfg, step, n)[0] == FineTick(cfg, step + 1)
              && FineTicks(cfg, step, n)[1..] == FineTicks(cfg, step + 1, n - 1)
  {
    hide FineTick;
  }

  lemma {:induction false} FineTicksAreInstant(cfg: Config, step: nat, n: nat, fates: seq<Fate>)
    requires |fates| == n && forall i :: 0 <= i < n ==> fates[i].Completes?
    ensures InstantTicks(Time(InstantOf(cfg, step + 1), true), cfg.interval, fates) == FineTicks(cfg, step, n)
    decreases n
  {
    if n > 0 {
      assert InstantOf(cfg, step + 1) + cfg.interval == InstantOf(cfg, step + 2) by {
        assert (step + 1) * cfg.interval == step * cfg.interval + cfg.interval;
      }
      FineTicksAreInstant(cfg, step + 1, n - 1, fates[1..]);
    }
  }

  /** A fast run with no faults and an empty database, of any length: every interval is accepted with a
      command, reports `online`, and dates the status from the start. The only condition is on the
      timeline: no interval may fall on Go's zero time, which no event can carry. */
  lemma FaultFreeRun(agent: Agent, hp: HealthPolicy, cfg: Config, nature: Nature, fates: seq<Fate>)
    requires cfg.Valid() && nature.Lawful() && nature.NamesApart() && Wired(agent, cfg) && cfg.faults == []
    requires forall i :: 0 <= i < |fates| ==> fates[i].Completes?
    requires forall k :: 0 < k <= |fates| ==> InstantOf(cfg, k) != 0
    ensures agent.policy.Valid()
    ensures var ticks := InstantTicks(Time(cfg.start.ns, true), cfg.interval, fates);
            var e := PlantLoop(agent, hp, cfg, nature, StartedPlant(cfg, nature, EMPTY_DATABASE), ticks);
            && e.ending.Running?
            && |e.records| == |fates|
            && (forall i :: 0 <= i < |fates| ==> FineRecord(cfg, e.records[i]))
  {
    var plant := StartedPlant(cfg, nature, EMPTY_DATABASE);
    assert Intact(EMPTY_DATABASE);
    StartedPlantIsSound(agent, cfg, nature, EMPTY_DATABASE);
    assert Restored(cfg, EMPTY_DATABASE) == cfg;
    assert plant.memory == Memory(ZERO_STATE, ZERO_HEALTH) && plant.db == EMPTY_DATABASE;
    assert Undisrupted(agent, cfg, nature, plant);
    assert InstantOf(cfg, 0 + 1) == cfg.start.ns;
    FineTicksAreInstant(cfg, 0, |fates|, fates);
    FineLoop(agent, hp, cfg, nature, plant, |fates|);
    hide PlantLoop, PlantSound, Config.Valid, Nature.Lawful, FineTicks, InstantTicks, FineRecord, Initial;
  }
}
