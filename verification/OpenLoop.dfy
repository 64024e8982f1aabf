/** Why the schedule condition of the reserve theorem is exact: every schedule it rules out takes some
    household below its reserve, whatever the weather. */
module OpenLoop {
  import opened Basics
  import opened Observations
  import opened LatestState
  import opened Health
  import opened ControlPolicy
  import opened Storage
  import opened Integrity
  import opened Runtime
  import opened Safety
  import opened Progress
  import opened Replay
  import opened HealthHistory
  import opened Battery
  import opened Faults
  import opened Simulator
  import opened ClosedLoop
  import opened Openings

  // ---------------------------------------------------------------------------------------------
  // A household that always wants its battery

  const CAPACITY_HOURS := 7.0

  /** A battery of seven kW-intervals at 30 percent, more load than sun and a price that always pays: the
      policy takes out ten percent, the limit, whenever an event reports 30. */
  predicate Sized(cfg: Config) {
    && cfg.batteryCapacityKWh == CAPACITY_HOURS * Hours(cfg.interval)
    && cfg.startingBatterySOCPercent == 30.0
    && cfg.pvPeakPowerKW == 1.0
    && cfg.loadBasePowerKW == 2.0
    && cfg.priceBaseEURPerKWh == 0.5
  }

  /** Two configurations of the same device, timeline and faults; battery, sun, load and price may differ. */
  predicate SameTimeline(cfg: Config, other: Config) {
    && cfg.start == other.start
    && cfg.interval == other.interval
    && cfg.deviceID == other.deviceID
    && cfg.faults == other.faults
  }

  function Resized(cfg: Config): Config {
    cfg.(batteryCapacityKWh := CAPACITY_HOURS * Hours(cfg.interval), startingBatterySOCPercent := 30.0,
         pvPeakPowerKW := 1.0, loadBasePowerKW := 2.0, priceBaseEURPerKWh := 0.5)
  }

  lemma ResizedIsValid(cfg: Config)
    requires cfg.Valid()
    ensures Resized(cfg).Valid() && Sized(Resized(cfg)) && SameTimeline(cfg, Resized(cfg))
  {
    assert Hours(cfg.interval) > 0.0;
    hide ScheduleValid, Blank;
  }

  /** Daily factors in the ranges they are drawn from. */
  predicate Seasoned(s: SimState) {
    && 0.8 <= s.dailyPVFactor <= 1.0
    && 0.85 <= s.dailyLoadFactor
    && 0.9 <= s.dailyPriceFactor
  }

  predicate Demanding(sample: Sample) {
    sample.loadPowerKW - sample.pvPowerKW >= 0.7 && sample.priceEURPerKWh >= DISCHARGE_PRICE_EUR_PER_KWH
  }

  lemma AtLeast(a: real, b: real, c: real, d: real)
    requires a >= c >= 0.0 && b >= d >= 0.0
    ensures a * b >= c * d
  {
    assert a * b >= c * b by {
      assert (a - c) * b >= 0.0;
    }
    assert c * b >= c * d by {
      assert c * (b - d) >= 0.0;
    }
  }

  lemma SunIsWeak(cfg: Config, nature: Nature, at: Time, factor: real)
    requires Sized(cfg) && nature.Lawful() && 0.0 <= factor <= 1.0
    ensures PVPowerKW(cfg, nature, at, factor) <= 1.0
  {
    var hour := HourOfDay(at);
    var sun := nature.sine((hour - 6.0) / (18.0 - 6.0));
    assert 0.0 <= sun <= 1.0;
    var peak := cfg.pvPeakPowerKW * factor;
    AtLeast(1.0, 1.0, peak, sun);
    assert PVPowerKW(cfg, nature, at, factor) == if hour <= 6.0 || hour >= 18.0 then 0.0 else peak * sun;
    hide HourOfDay;
  }

  lemma LoadIsStrong(cfg: Config, nature: Nature, at: Time, factor: real)
    requires Sized(cfg) && nature.Lawful() && 0.85 <= factor
    ensures LoadPowerKW(cfg, nature, at, factor) >= 1.7
  {
    var hour := HourOfDay(at);
    var m, e := DailyBell(nature, hour, 7.0, 1.5), DailyBell(nature, hour, 19.0, 2.0);
    assert 0.0 <= m && 0.0 <= e;
    var base, demand := cfg.loadBasePowerKW * factor, 1.0 + 1.5 * m + 2.5 * e;
    assert LoadPowerKW(cfg, nature, at, factor) == base * demand;
    hide *;
    AtLeast(base, demand, 1.7, 1.0);
  }

  lemma PriceIsHigh(cfg: Config, nature: Nature, at: Time, factor: real)
    requires Sized(cfg) && nature.Lawful() && 0.9 <= factor
    ensures PriceEURPerKWh(cfg, nature, at, factor) >= 0.3825
  {
    var hour := HourOfDay(at);
    var m, e := DailyBell(nature, hour, 7.0, 1.5), DailyBell(nature, hour, 19.0, 2.0);
    var n := DailyBell(nature, hour, 13.0, 2.5);
    assert 0.0 <= m && n <= 1.0 && 0.0 <= e;
    var base, demand := cfg.priceBaseEURPerKWh * factor, 1.0 + 0.2 * m - 0.15 * n + 0.65 * e;
    assert PriceEURPerKWh(cfg, nature, at, factor) == base * demand;
    hide *;
    AtLeast(base, demand, 0.45, 0.85);
  }

  lemma SampleIsDemanding(cfg: Config, nature: Nature, s: SimState)
    requires Sized(cfg) && nature.Lawful() && Seasoned(s)
    ensures Demanding(NaturalSample(cfg, nature, s))
  {
    SunIsWeak(cfg, nature, s.currentTime, s.dailyPVFactor);
    LoadIsStrong(cfg, nature, s.currentTime, s.dailyLoadFactor);
    PriceIsHigh(cfg, nature, s.currentTime, s.dailyPriceFactor);
    hide PVPowerKW, LoadPowerKW, PriceEURPerKWh, Sized;
  }

  lemma StartedDayIsSeasoned(nature: Nature, s: SimState)
    requires nature.Lawful()
    ensures Seasoned(StartedDay(nature, s))
  {
    assert 0.0 <= nature.random(s.drawn) < 1.0;
    assert 0.0 <= nature.random(s.drawn + 1) < 1.0;
    assert 0.0 <= nature.random(s.drawn + 2) < 1.0;
  }

  lemma AdvancedIsSeasoned(cfg: Config, nature: Nature, s: SimState)
    requires Sized(cfg) && nature.Lawful() && Seasoned(s)
    ensures Seasoned(Advanced(cfg, nature, s)) && Demanding(Advanced(cfg, nature, s).pending)
  {
    StartedDayIsSeasoned(nature, s);
    SampleIsDemanding(cfg, nature, if s.currentTime.ns < s.dayEnd.ns then s else StartedDay(nature, s));
    hide NaturalSample, Sized, Demanding;
  }

  lemma CompletedKeepsFactors(cfg: Config, s: SimState, command: Option<Command>)
    requires cfg.batteryCapacityKWh > 0.0 && Seasoned(s)
    ensures Seasoned(Completed(cfg, s, command).0)
  {
    hide NextBatterySOCPercent, CommandError;
  }

  /** The command for a demanding state at 30 percent, and what it does to the battery. */
  lemma DemandingDecision(cfg: Config, state: State)
    requires cfg.interval > 0 && Sized(cfg)
    requires state.batterySOCPercent == 30.0
    requires state.loadPowerKW - state.pvPowerKW >= 0.7 && state.priceEURPerKWh >= DISCHARGE_PRICE_EUR_PER_KWH
    ensures Policy(cfg.batteryCapacityKWh, cfg.interval).Valid()
    ensures CommandBatteryPowerKW(Policy(cfg.batteryCapacityKWh, cfg.interval).Decide(state)) == -0.7
  {
    var hours := Hours(cfg.interval);
    assert hours > 0.0;
    assert (30.0 - 20.0) / 100.0 * (7.0 * hours) == 0.7 * hours;
    assert 0.7 * hours / hours == 0.7;
  }

  lemma TenPercent(cfg: Config, soc: real)
    requires cfg.interval > 0 && Sized(cfg) && 10.0 < soc <= 100.0
    ensures cfg.batteryCapacityKWh > 0.0
    ensures NextBatterySOCPercent(soc, -0.7, cfg.interval, cfg.batteryCapacityKWh) == soc - 10.0
  {
    assert Hours(cfg.interval) > 0.0;
    assert 10.0 * cfg.batteryCapacityKWh == 100.0 * (0.7 * Hours(cfg.interval));
    TakesShare(soc, 0.7, cfg.interval, cfg.batteryCapacityKWh, 10.0);
    hide NextBatterySOCPercent, Hours, Sized;
  }

  /** A discharge of a given share of the capacity. */
  lemma TakesShare(soc: real, power: real, interval: int, capacity: real, share: real)
    requires capacity > 0.0 && 0.0 <= soc - share <= 100.0
    requires share * capacity == 100.0 * (power * Hours(interval))
    ensures NextBatterySOCPercent(soc, -power, interval, capacity) == soc - share
  {
    hide *;
    var next := NextBatterySOCPercent(soc, -power, interval, capacity);
    Negated(power, Hours(interval));
    ShareEnergy(soc, share, capacity);
    NextEnergy(soc, -power, interval, capacity);
    EnergyOrder(0.0, soc - share, capacity);
    EnergyOrder(soc - share, 0.0, capacity);
    EnergyOrder(100.0, soc - share, capacity);
    EnergyOrder(soc - share, 100.0, capacity);
    EnergyOrder(next, soc - share, capacity);
    EnergyOrder(soc - share, next, capacity);
  }

  lemma Negated(power: real, hours: real)
    ensures (-power) * hours == -(power * hours)
  {
  }

  lemma ShareEnergy(soc: real, share: real, capacity: real)
    ensures EnergyKWh(soc, capacity) - share * capacity / 100.0 == EnergyKWh(soc - share, capacity)
  {
  }

  // ---------------------------------------------------------------------------------------------
  // A store that keeps the first steps quiet

  function RedatedNames(cfg: Config): set<string> {
    set f | f in cfg.faults && f.kind.OutOfOrderFault? && !Padded(f.eventID) :: f.eventID
  }

  function NaturalNames(cfg: Config, nature: Nature, last: int): set<string> {
    set j | 1 <= j <= last :: nature.eventID(cfg.deviceID, InstantOf(cfg, j))
  }

  /** The names of the device's own samples are none the schedule makes up. */
  ghost predicate Avoids(nature: Nature, cfg: Config) {
    forall t :: nature.eventID(cfg.deviceID, t) !in RedatedNames(cfg)
  }

  /** Every name that can be delivered before the step ahead of an opening, and none from there on. */
  function KnownNames(cfg: Config, nature: Nature, step: int): set<string>
    requires Opens(cfg, step)
  {
    if FaultAt(cfg.faults, step - 1).value.kind.OutOfOrderFault? then
      NaturalNames(cfg, nature, step - 2) + (RedatedNames(cfg) - {RedatedName(cfg, step - 1).value})
    else
      NaturalNames(cfg, nature, step - 3) + RedatedNames(cfg)
  }

  /** A database that knows exactly those names and nothing else of the device. */
  predicate PrimedFor(cfg: Config, nature: Nature, step: int, db: Database)
    requires Opens(cfg, step)
  {
    && Intact(db)
    && RestoredMemory(db, cfg.deviceID) == Memory(ZERO_STATE, ZERO_HEALTH)
    && db.telemetry.Keys == KnownNames(cfg, nature, step)
  }

  lemma KnownNamesAreTrimmed(cfg: Config, nature: Nature, step: int)
    requires cfg.Valid() && nature.Lawful() && Opens(cfg, step)
    ensures forall name :: name in KnownNames(cfg, nature, step) ==> !Blank(name) && !Padded(name)
  {
    forall f | f in cfg.faults ensures f.Valid() {
      var i :| 0 <= i < |cfg.faults| && cfg.faults[i] == f;
    }
    hide Blank, Padded, Rejects, Opens;
  }

  lemma PrimedMeans(cfg: Config, nature: Nature, step: int, db: Database)
    requires Opens(cfg, step) && PrimedFor(cfg, nature, step, db)
    ensures Intact(db)
    ensures Restored(cfg, db) == cfg
    ensures RestoredMemory(db, cfg.deviceID) == Memory(ZERO_STATE, ZERO_HEALTH)
    ensures db.telemetry.Keys == KnownNames(cfg, nature, step)
  {
    hide Intact, KnownNames, Opens, SnapshotOf;
  }

  // Such databases are what the program leaves behind when it ran for another device.

  ghost function Listed(names: set<string>): (list: seq<string>)
    ensures forall name :: name in list <==> name in names
  {
    if names == {} then []
    else
      var name :| name in names;
      [name] + Listed(names - {name})
  }

  const ONE := Time(1, true)

  function PlainEvent(deviceID: string, name: string): Telemetry {
    Telemetry(name, ONE, deviceID, 0.0, 0.0, 0.0, 1.0)
  }

  function PlainSteps(deviceID: string, list: seq<string>): (script: seq<Step>)
    ensures |script| == |list|
    ensures forall i :: 0 <= i < |list| ==>
              script[i] == Step(Some(Envelope(deviceID, ONE, Some(Complete(PlainEvent(deviceID, list[i]))), true)), ONE,
                                Completes)
  {
    seq(|list|, i requires 0 <= i < |list| =>
      Step(Some(Envelope(deviceID, ONE, Some(Complete(PlainEvent(deviceID, list[i]))), true)), ONE, Completes))
  }

  lemma {:induction false} PlainArrivals(deviceID: string, list: seq<string>, script: seq<Step>)
    requires !Blank(deviceID) && forall name :: name in list ==> !Blank(name) && !Padded(name)
    requires script == PlainSteps(deviceID, list)
    ensures forall i :: 0 <= i < |script| ==> EventOf(script[i].envelope) == Some(PlainEvent(deviceID, list[i]))
    ensures |Arrivals(script)| == |list|
    ensures forall i :: 0 <= i < |list| ==> Arrivals(script)[i] == PlainEvent(deviceID, list[i])
    decreases |list|
  {
    forall i | 0 <= i < |script| ensures EventOf(script[i].envelope) == Some(PlainEvent(deviceID, list[i])) {
      assert list[i] in list;
      PlainReading(deviceID, list[i]);
    }
    if list != [] {
      assert script[1..] == PlainSteps(deviceID, list[1..]);
      PlainArrivals(deviceID, list[1..], script[1..]);
      assert Arrivals(script) == [EventOf(script[0].envelope).value] + Arrivals(script[1..]);
    }
    hide EventOf, PlainEvent, Blank, Padded;
  }

  lemma PlainReading(deviceID: string, name: string)
    requires !Blank(deviceID) && !Blank(name) && !Padded(name)
    ensures EventOf(Some(Envelope(deviceID, ONE, Some(Complete(PlainEvent(deviceID, name))), true)))
            == Some(PlainEvent(deviceID, name))
  {
    ValidatedIffComplete(Complete(PlainEvent(deviceID, name)), PlainEvent(deviceID, name));
  }

  /** A run of an agent for another device, from the empty database, that stores exactly the given names. */
  function OtherLaunch(deviceID: string, list: seq<string>): Launch {
    Launch(Agent("", "other-" + deviceID, Policy(1.0, 1), 0), PlainSteps("other-" + deviceID, list), false)
  }

  lemma OtherLaunchStores(deviceID: string, list: seq<string>)
    requires !Blank(deviceID) && forall name :: name in list ==> !Blank(name) && !Padded(name)
    ensures OtherLaunch(deviceID, list).agent.policy.Valid()
    ensures var db := OtherLaunch(deviceID, list).On(EMPTY_DATABASE).db;
            && Intact(db)
            && RestoredMemory(db, deviceID) == Memory(ZERO_STATE, ZERO_HEALTH)
            && forall name :: name in db.telemetry <==> name in list
  {
    var launch := OtherLaunch(deviceID, list);
    var agent, script := launch.agent, launch.script;
    assert launch.On(EMPTY_DATABASE) == Run(agent, EMPTY_DATABASE, script);
    OtherDevice(deviceID);
    PlainArrivals(agent.deviceID, list, script);
    PlainRun(agent, script, list, deviceID);
  }

  lemma OtherDevice(deviceID: string)
    ensures "other-" + deviceID != deviceID && !Blank("other-" + deviceID)
  {
    assert |"other-" + deviceID| == 6 + |deviceID|;
    assert ("other-" + deviceID)[0] == 'o';
  }

  lemma PlainRun(agent: Agent, script: seq<Step>, list: seq<string>, deviceID: string)
    requires agent.policy == Policy(1.0, 1) && agent.maxIntervals == 0
    requires !Blank(agent.deviceID) && agent.deviceID != deviceID
    requires script == PlainSteps(agent.deviceID, list)
    requires forall i :: 0 <= i < |script| ==> EventOf(script[i].envelope) == Some(PlainEvent(agent.deviceID, list[i]))
    requires |Arrivals(script)| == |list|
    requires forall i :: 0 <= i < |list| ==> Arrivals(script)[i] == PlainEvent(agent.deviceID, list[i])
    ensures agent.policy.Valid()
    ensures var db := Run(agent, EMPTY_DATABASE, script).db;
            && Intact(db)
            && RestoredMemory(db, deviceID) == Memory(ZERO_STATE, ZERO_HEALTH)
            && forall name :: name in db.telemetry <==> name in list
  {
    hide *;
    PlainParts(agent, script, list);
    EmptyStart(deviceID);
    NoObservationStopsTheRun(agent, EMPTY_DATABASE, script, false);
    RunHears(agent, EMPTY_DATABASE, script);
    RunAbsorbs(agent, EMPTY_DATABASE, script);
    RunIsSafe(agent, EMPTY_DATABASE, script);
    RestoredRefines(EMPTY_DATABASE, agent.deviceID);
    LoopLeavesOtherDevices(agent, DefaultPolicy(agent).value, RestoredMemory(EMPTY_DATABASE, agent.deviceID),
                           EMPTY_DATABASE, script, deviceID);
    AbsorbAllHolds(ViewOf(EMPTY_DATABASE, agent.deviceID), Arrivals(script));
    ViewNames(Run(agent, EMPTY_DATABASE, script).db, agent.deviceID);
    ViewNames(EMPTY_DATABASE, agent.deviceID);
    StoredNames(ViewOf(EMPTY_DATABASE, agent.deviceID), agent.deviceID, list, Arrivals(script),
                ViewOf(Run(agent, EMPTY_DATABASE, script).db, agent.deviceID));
    EmptyMemory(deviceID);
  }

  lemma EmptyMemory(deviceID: string)
    ensures RestoredMemory(EMPTY_DATABASE, deviceID) == Memory(ZERO_STATE, ZERO_HEALTH)
  {
  }

  lemma PlainParts(agent: Agent, script: seq<Step>, list: seq<string>)
    requires agent.policy == Policy(1.0, 1) && agent.maxIntervals == 0 && script == PlainSteps(agent.deviceID, list)
    requires forall i :: 0 <= i < |script| ==> EventOf(script[i].envelope) == Some(PlainEvent(agent.deviceID, list[i]))
    requires |Arrivals(script)| == |list|
    requires forall i :: 0 <= i < |list| ==> Arrivals(script)[i] == PlainEvent(agent.deviceID, list[i])
    ensures agent.policy.Valid() && agent.policy.interval <= MAX_INT64 && 3 * agent.policy.interval <= MAX_INT64
    ensures Undisturbed(script) && Bounded(agent, script) == script && Heard(agent, script) == script
    ensures forall i :: 0 <= i < |script| ==> !Foreign(agent.deviceID, script[i].envelope)
    ensures OneEventPerID(Arrivals(script))
    ensures forall ending :: Well(ending) <==> ending.Running? || ending.Finished? || ending.CleanStop?
  {
    AllHeard(script);
    hide EventOf, Arrivals;
  }

  lemma {:induction false} AllHeard(script: seq<Step>)
    requires forall i :: 0 <= i < |script| ==> script[i].fate.Completes?
    ensures UntilStopped(script) == script
    decreases |script|
  {
    if script != [] {
      AllHeard(script[1..]);
    }
  }

  lemma StoredNames(before: View, deviceID: string, list: seq<string>, arrivals: seq<Telemetry>, after: View)
    requires |arrivals| == |list| && forall i :: 0 <= i < |list| ==> arrivals[i] == PlainEvent(deviceID, list[i])
    requires Holds(before, arrivals, after)
    requires forall name :: name !in before.events
    ensures forall name :: name in after.events <==> name in list
  {
    forall name | name in list ensures name in after.events {
      var i :| 0 <= i < |list| && list[i] == name;
      assert arrivals[i].eventID == name;
    }
  }

  /** From the empty database, one run for another device leaves exactly the database an opening needs. */
  lemma SomeRunPrimes(cfg: Config, nature: Nature, step: int) returns (launch: Launch)
    requires cfg.Valid() && nature.Lawful() && Opens(cfg, step)
    ensures launch.agent.policy.Valid() && launch.agent.deviceID != cfg.deviceID
    ensures PrimedFor(cfg, nature, step, launch.On(EMPTY_DATABASE).db)
  {
    hide Intact, Opens, KnownNames, RestoredMemory, ScheduleValid, Blank, Padded, Launch.On;
    KnownNamesAreTrimmed(cfg, nature, step);
    var list := Listed(KnownNames(cfg, nature, step));
    launch := OtherLaunch(cfg.deviceID, list);
    OtherDevice(cfg.deviceID);
    OtherLaunchStores(cfg.deviceID, list);
    var db := launch.On(EMPTY_DATABASE).db;
    assert db.telemetry.Keys == KnownNames(cfg, nature, step);
  }

  lemma NaturalNamesApart(cfg: Config, nature: Nature, last: int, j: int)
    requires cfg.interval > 0 && nature.NamesApart() && j > last
    ensures nature.eventID(cfg.deviceID, InstantOf(cfg, j)) !in NaturalNames(cfg, nature, last)
  {
    forall i | 1 <= i <= last
      ensures nature.eventID(cfg.deviceID, InstantOf(cfg, i)) != nature.eventID(cfg.deviceID, InstantOf(cfg, j))
    {
      InstantsDiffer(cfg, i, j);
    }
    hide InstantOf;
  }

  // ---------------------------------------------------------------------------------------------
  // Intervals of such a household

  predicate Calm(tick: Tick) {
    tick.fate.Completes? && tick.now.Durable()
  }

  /** The household, its agent and its weather. */
  ghost predicate Set(agent: Agent, cfg: Config, nature: Nature) {
    cfg.Valid() && Sized(cfg) && nature.Lawful() && Wired(agent, cfg)
  }

  predicate Ready(agent: Agent, cfg: Config, nature: Nature, plant: Plant) {
    PlantSound(agent, cfg, nature, plant) && Seasoned(plant.sim)
  }

  /** What every calm interval does, whatever is handed over. */
  predicate StepsOn(agent: Agent, cfg: Config, nature: Nature, plant: Plant, e: PlantEffect) {
    && e.ending.Running?
    && Ready(agent, cfg, nature, e.plant)
    && e.plant.sim.step == plant.sim.step + 1
    && e.plant.sim.prior == Advanced(cfg, nature, plant.sim).pending
    && Demanding(e.plant.sim.prior)
    && e.plant.sim.prior.batterySOCPercent == plant.sim.batterySOCPercent
  }

  lemma CalmStepsOn(agent: Agent, hp: HealthPolicy, cfg: Config, nature: Nature, plant: Plant, tick: Tick)
    requires Set(agent, cfg, nature) && Ready(agent, cfg, nature, plant) && Calm(tick)
    ensures agent.policy.Valid() && cfg.batteryCapacityKWh > 0.0
    ensures StepsOn(agent, cfg, nature, plant, PlantInterval(agent, hp, cfg, nature, plant, tick))
    ensures var envelope := HandedEnvelope(cfg, nature, plant.sim);
            var e := Interval(agent, hp, plant.memory, plant.db, Step(envelope, tick.now, tick.fate));
            !Foreign(agent.deviceID, envelope) && e.ending.Running? && e.applies == 1
  {
    hide *;
    SetMeans(agent, cfg, nature);
    ReadyMeans(agent, cfg, nature, plant, tick);
    PolicyIsValid(agent, cfg);
    var envelope := HandedEnvelope(cfg, nature, plant.sim);
    var step := Step(envelope, tick.now, tick.fate);
    var e := Interval(agent, hp, plant.memory, plant.db, step);
    var after := PlantInterval(agent, hp, cfg, nature, plant, tick);
    StaleEnvelope(agent, cfg, nature, plant);
    IntervalContinues(agent, hp, plant.memory, plant.db, step);
    PlantAdvances(agent, hp, cfg, nature, plant, tick);
    AdvancesMeans(agent, hp, cfg, nature, plant, tick, envelope);
    PlantStaysSound(agent, hp, cfg, nature, plant, tick);
    HandsOut(cfg, nature, plant.sim);
    AdvancedIsSeasoned(cfg, nature, plant.sim);
    CompletedKeepsFactors(cfg, Advanced(cfg, nature, plant.sim), CommandOf(e.sent));
    StepsOnFrom(agent, cfg, nature, plant, after);
  }

  lemma SetMeans(agent: Agent, cfg: Config, nature: Nature)
    requires Set(agent, cfg, nature)
    ensures cfg.Valid() && Sized(cfg) && nature.Lawful() && Wired(agent, cfg) && cfg.interval > 0
    ensures ZERO_STATE.updatedAt.IsZero()
  {
    hide ScheduleValid, Blank, Sized, Nature.Lawful, Wired;
  }

  lemma ReadyMeans(agent: Agent, cfg: Config, nature: Nature, plant: Plant, tick: Tick)
    requires Ready(agent, cfg, nature, plant)
    ensures PlantSound(agent, cfg, nature, plant) && Seasoned(plant.sim)
    ensures Poised(cfg, nature, plant.sim) && Intact(plant.db) && Refines(plant.memory, plant.db, agent.deviceID)
    ensures Calm(tick) ==>
              tick.fate.Completes? && tick.now.Durable() && !tick.fate.Cancelled? && !tick.fate.SinkFails?
              && ReachesSink(tick.fate)
  {
    hide Poised, Intact, Refines, Seasoned;
  }

  lemma StepsOnFrom(agent: Agent, cfg: Config, nature: Nature, plant: Plant, after: PlantEffect)
    requires after.ending.Running? && PlantSound(agent, cfg, nature, after.plant) && Seasoned(after.plant.sim)
    requires after.plant.sim.step == plant.sim.step + 1
    requires after.plant.sim.prior == Advanced(cfg, nature, plant.sim).pending
    requires Demanding(after.plant.sim.prior)
    requires after.plant.sim.prior.batterySOCPercent == plant.sim.batterySOCPercent
    ensures StepsOn(agent, cfg, nature, plant, after)
  {
    hide PlantSound, Seasoned, Demanding, Advanced;
  }

  /** A calm interval without an event, or with one that storage knows, leaves everything but time and
      health. */
  lemma UneventfulStep(agent: Agent, hp: HealthPolicy, cfg: Config, nature: Nature, plant: Plant, tick: Tick)
    requires Set(agent, cfg, nature) && Ready(agent, cfg, nature, plant) && Calm(tick)
    requires var event := EventOf(HandedEnvelope(cfg, nature, plant.sim));
             event.None? || event.value.eventID in plant.db.telemetry
    ensures agent.policy.Valid() && cfg.batteryCapacityKWh > 0.0
    ensures var e := PlantInterval(agent, hp, cfg, nature, plant, tick);
            && e.applied == []
            && e.plant.sim.batterySOCPercent == plant.sim.batterySOCPercent
            && e.plant.db.telemetry == plant.db.telemetry
            && e.plant.memory.state == plant.memory.state
  {
    hide *;
    SetMeans(agent, cfg, nature);
    ReadyMeans(agent, cfg, nature, plant, tick);
    PolicyIsValid(agent, cfg);
    var envelope := HandedEnvelope(cfg, nature, plant.sim);
    var step := Step(envelope, tick.now, tick.fate);
    var e := Interval(agent, hp, plant.memory, plant.db, step);
    IntervalDispatch(agent, hp, plant.memory, plant.db, step);
    PlantAdvances(agent, hp, cfg, nature, plant, tick);
    AdvancesMeans(agent, hp, cfg, nature, plant, tick, envelope);
    SameLatest(agent.deviceID, plant, e);
    CalmStepsOn(agent, hp, cfg, nature, plant, tick);
  }

  lemma SameLatest(deviceID: string, plant: Plant, e: Effect)
    requires Intact(plant.db) && Refines(plant.memory, plant.db, deviceID)
    requires Intact(e.db) && Refines(e.memory, e.db, deviceID)
    ensures e.db.latest == plant.db.latest ==> e.memory.state == plant.memory.state
  {
    RestoredShape(plant.db, deviceID);
    RestoredShape(e.db, deviceID);
    hide Intact, RestoredMemory;
  }

  /** An event that makes the policy take out ten percent: new, on time, and reporting 30. */
  predicate Draws(agent: Agent, plant: Plant, envelope: Option<Envelope>) {
    var event := EventOf(envelope);
    && event.Some?
    && !Late(agent, envelope)
    && event.value.eventID !in plant.db.telemetry
    && Supersedes(event.value, plant.memory.state)
    && event.value.batterySOCPercent == 30.0
    && event.value.loadPowerKW - event.value.pvPowerKW >= 0.7
    && event.value.priceEURPerKWh >= DISCHARGE_PRICE_EUR_PER_KWH
  }

  lemma DrawingStep(agent: Agent, hp: HealthPolicy, cfg: Config, nature: Nature, plant: Plant, tick: Tick)
    requires Set(agent, cfg, nature) && Ready(agent, cfg, nature, plant) && Calm(tick)
    requires Draws(agent, plant, HandedEnvelope(cfg, nature, plant.sim))
    requires 10.0 < plant.sim.batterySOCPercent <= 100.0
    ensures agent.policy.Valid() && cfg.batteryCapacityKWh > 0.0
    ensures var e := PlantInterval(agent, hp, cfg, nature, plant, tick);
            var event := EventOf(HandedEnvelope(cfg, nature, plant.sim)).value;
            && |e.applied| == 1
            && e.applied[0].eventID == event.eventID
            && e.applied[0].reportedSOC == 30.0
            && e.applied[0].before == plant.sim.batterySOCPercent
            && e.applied[0].after == e.plant.sim.batterySOCPercent == plant.sim.batterySOCPercent - 10.0
            && e.plant.db.telemetry.Keys == plant.db.telemetry.Keys + {event.eventID}
            && e.plant.memory.state == StateOf(event)
  {
    hide *;
    SetMeans(agent, cfg, nature);
    ReadyMeans(agent, cfg, nature, plant, tick);
    PolicyIsValid(agent, cfg);
    var envelope := HandedEnvelope(cfg, nature, plant.sim);
    var step := Step(envelope, tick.now, tick.fate);
    var e := Interval(agent, hp, plant.memory, plant.db, step);
    DrawsMeans(agent, plant, envelope);
    CalmStepsOn(agent, hp, cfg, nature, plant, tick);
    NewEventInterval(agent, hp, plant.memory, plant.db, step);
    PlantAdvances(agent, hp, cfg, nature, plant, tick);
    AdvancesMeans(agent, hp, cfg, nature, plant, tick, envelope);
    ReportedMeans(envelope);
    DrawnPower(agent, cfg, EventOf(envelope).value);
    TenPercent(cfg, plant.sim.batterySOCPercent);
  }

  lemma DrawsMeans(agent: Agent, plant: Plant, envelope: Option<Envelope>)
    requires Draws(agent, plant, envelope)
    ensures var event := EventOf(envelope);
            && event.Some?
            && !Late(agent, envelope)
            && event.value.eventID !in plant.db.telemetry
            && Supersedes(event.value, plant.memory.state)
            && event.value.batterySOCPercent == 30.0
            && event.value.loadPowerKW - event.value.pvPowerKW >= 0.7
            && event.value.priceEURPerKWh >= DISCHARGE_PRICE_EUR_PER_KWH
  {
    hide EventOf, Late, Supersedes;
  }

  lemma DrawnPower(agent: Agent, cfg: Config, event: Telemetry)
    requires cfg.Valid() && Sized(cfg) && Wired(agent, cfg) && agent.policy.Valid()
    requires event.batterySOCPercent == 30.0
    requires event.loadPowerKW - event.pvPowerKW >= 0.7 && event.priceEURPerKWh >= DISCHARGE_PRICE_EUR_PER_KWH
    ensures CommandBatteryPowerKW(agent.policy.Decide(StateOf(event))) == -0.7 && cfg.interval > 0
  {
    DemandingDecision(cfg, StateOf(event));
    hide CommandBatteryPowerKW, Policy.Decide, Sized, ScheduleValid, Blank;
  }

  // ---------------------------------------------------------------------------------------------
  // What the steps up to an opening hand over

  function NameOf(cfg: Config, nature: Nature, step: int): string {
    nature.eventID(cfg.deviceID, InstantOf(cfg, step))
  }

  /** The event of the next step, by the step's fault. */
  lemma HandedEvent(cfg: Config, nature: Nature, s: SimState)
    requires cfg.Valid() && nature.Lawful() && Poised(cfg, nature, s)
    ensures var step := s.step + 1;
            var fault := FaultAt(cfg.faults, step);
            var envelope := HandedEnvelope(cfg, nature, s);
            var event := EventOf(envelope);
            && (fault.None? || fault.value.kind.DelayFault? ==>
                  && Advanced(cfg, nature, s).pending.eventID == NameOf(cfg, nature, step)
                  && Advanced(cfg, nature, s).pending.eventTime == Time(InstantOf(cfg, step), true)
                  && event == if InstantOf(cfg, step) == 0 || !HandsOver(cfg, step) then None
                              else Some(TelemetryOf(cfg.deviceID, Advanced(cfg, nature, s).pending)))
            && (fault.Some? && fault.value.kind.DuplicateFault? ==>
                  && s.step > 0
                  && s.prior.eventID == NameOf(cfg, nature, s.step)
                  && s.prior.eventTime == Time(InstantOf(cfg, s.step), true)
                  && envelope.value.receivedAt.ns == InstantOf(cfg, step)
                  && event == if InstantOf(cfg, step) == 0 || InstantOf(cfg, s.step) == 0 then None
                              else Some(TelemetryOf(cfg.deviceID, s.prior)))
            && (fault.Some? && fault.value.kind.OutOfOrderFault? ==>
                  && fault.value in cfg.faults
                  && fault.value.eventTimeOffset < 0
                  && envelope.value.receivedAt.ns == InstantOf(cfg, step)
                  && Advanced(cfg, nature, s).pending.eventTime == Time(InstantOf(cfg, step), true)
                  && Advanced(cfg, nature, s).pending.batterySOCPercent == s.batterySOCPercent
                  && event == if RedatedName(cfg, step).None? then None
                              else
                                Some(TelemetryOf(cfg.deviceID,
                                                 ReDated(Advanced(cfg, nature, s).pending, fault.value))))
            && (event.Some? ==>
                  fault.None? || fault.value.kind.DelayFault? || fault.value.kind.DuplicateFault?
                  || fault.value.kind.OutOfOrderFault?)
  {
    var next := Advanced(cfg, nature, s);
    var fault := FaultAt(cfg.faults, s.step + 1);
    HandsOut(cfg, nature, s);
    InstantsAdvance(cfg, s.step);
    FaultAtFinds(cfg.faults, s.step + 1);
    DeliveredEvent(cfg, next, fault);
    if fault.Some? && fault.value.kind.DuplicateFault? {
      ReceivedOnTime(cfg, next, fault);
    }
    hide EventOf, DeliveredEnvelope, Advanced, FaultAt, SoundSample, InstantOf, ScheduleValid, Nature.Lawful,
      SoundFactors, Blank, Padded;
  }

  /** Before the step ahead of the opening, whatever arrives is known. */
  lemma QuietDelivery(cfg: Config, nature: Nature, s: SimState, step: int)
    requires cfg.Valid() && nature.Lawful() && Poised(cfg, nature, s)
    requires Opens(cfg, step) && s.step + 1 < step - 1
    ensures var event := EventOf(HandedEnvelope(cfg, nature, s));
            event.None? || event.value.eventID in KnownNames(cfg, nature, step)
  {
    var event := EventOf(HandedEnvelope(cfg, nature, s));
    HandedEvent(cfg, nature, s);
    if event.Some? {
      var fault := FaultAt(cfg.faults, s.step + 1);
      hide EventOf, HandedEnvelope, Advanced, FaultAt, HandsOver, InstantOf, Config.Valid, Nature.Lawful, Poised,
        Padded;
      if fault.Some? && fault.value.kind.OutOfOrderFault? {
        assert fault.value.eventID in RedatedNames(cfg);
      } else if fault.Some? && fault.value.kind.DuplicateFault? {
        assert event.value.eventID == NameOf(cfg, nature, s.step);
      } else {
        assert event.value.eventID == NameOf(cfg, nature, s.step + 1);
      }
    }
  }

  lemma OnTime(agent: Agent, cfg: Config, envelope: Option<Envelope>)
    requires cfg.Valid() && Wired(agent, cfg)
    requires EventOf(envelope).Some?
    requires 0 <= envelope.value.receivedAt.ns - EventOf(envelope).value.eventTime.ns <= cfg.interval
    ensures !Late(agent, envelope)
  {
    IntervalFitsDay(cfg);
    hide EventOf, ScheduleValid, Blank;
  }

  /** What the step ahead of the opening hands over: an event nobody has seen, older than the step's own
      sample, under a made-up name or that of the sample before. */
  predicate FirstDraw(cfg: Config, nature: Nature, event: Telemetry, step: int)
    requires Opens(cfg, step)
  {
    && event.eventID !in KnownNames(cfg, nature, step)
    && event.eventTime.ns < InstantOf(cfg, step - 1)
    && (event.eventID in RedatedNames(cfg) || event.eventID == NameOf(cfg, nature, step - 2))
  }

  lemma FirstDelivery(agent: Agent, cfg: Config, nature: Nature, plant: Plant, step: int)
    requires Set(agent, cfg, nature) && nature.NamesApart() && Avoids(nature, cfg)
    requires Ready(agent, cfg, nature, plant)
    requires Opens(cfg, step) && plant.sim.step + 1 == step - 1
    requires plant.sim.batterySOCPercent == 30.0 && plant.memory.state == ZERO_STATE
    requires plant.sim.step > 0 ==> Demanding(plant.sim.prior) && plant.sim.prior.batterySOCPercent == 30.0
    requires plant.db.telemetry.Keys == KnownNames(cfg, nature, step)
    ensures var envelope := HandedEnvelope(cfg, nature, plant.sim);
            Draws(agent, plant, envelope) && FirstDraw(cfg, nature, EventOf(envelope).value, step)
  {
    hide *;
    var s := plant.sim;
    var envelope := HandedEnvelope(cfg, nature, s);
    SetMeans(agent, cfg, nature);
    ReadyMeans(agent, cfg, nature, plant, Tick(ZERO_TIME, Completes));
    HandedEvent(cfg, nature, s);
    AdvancedIsSeasoned(cfg, nature, s);
    OpensMeans(cfg, step);
    var fault := FaultAt(cfg.faults, step - 1).value;
    var sample := if fault.kind.OutOfOrderFault? then ReDated(Advanced(cfg, nature, s).pending, fault) else s.prior;
    if fault.kind.OutOfOrderFault? {
      ReDatedDraws(cfg, nature, Advanced(cfg, nature, s).pending, step);
    } else {
      InstantsAdvance(cfg, s.step);
      RedeliveredDraws(cfg, nature, s.prior, step);
    }
    SampleDraws(agent, cfg, plant, envelope, sample);
  }

  lemma OpensMeans(cfg: Config, step: int)
    requires Opens(cfg, step)
    ensures step >= 2 && InstantOf(cfg, step - 1) != 0 && InstantOf(cfg, step) != 0
    ensures FaultAt(cfg.faults, step).Some? && FaultAt(cfg.faults, step).value.kind.DuplicateFault?
    ensures var fault := FaultAt(cfg.faults, step - 1);
            && fault.Some?
            && (fault.value.kind.OutOfOrderFault? || fault.value.kind.DuplicateFault?)
            && (fault.value.kind.OutOfOrderFault? ==>
                  && RedatedName(cfg, step - 1) == Some(fault.value.eventID)
                  && -fault.value.eventTimeOffset <= cfg.interval)
            && (fault.value.kind.DuplicateFault? ==>
                  step >= 3 && InstantOf(cfg, step - 2) != 0 && !HandsOver(cfg, step - 2))
  {
    hide FaultAt, InstantOf, HandsOver, NamedBefore, Padded;
  }

  /** A demanding sample that reports 30 percent draws, if it is delivered on time and not known. */
  lemma SampleDraws(agent: Agent, cfg: Config, plant: Plant, envelope: Option<Envelope>, sample: Sample)
    requires cfg.Valid() && Wired(agent, cfg)
    requires EventOf(envelope) == Some(TelemetryOf(cfg.deviceID, sample))
    requires 0 <= envelope.value.receivedAt.ns - sample.eventTime.ns <= cfg.interval
    requires sample.eventID !in plant.db.telemetry
    requires plant.memory.state.updatedAt.IsZero() || plant.memory.state.updatedAt.ns < sample.eventTime.ns
    requires Demanding(sample) && sample.batterySOCPercent == 30.0
    ensures Draws(agent, plant, envelope)
  {
    OnTime(agent, cfg, envelope);
    hide EventOf, ScheduleValid, Blank, Late;
  }

  lemma ReDatedDraws(cfg: Config, nature: Nature, pending: Sample, step: int)
    requires cfg.Valid() && Avoids(nature, cfg) && Opens(cfg, step)
    requires FaultAt(cfg.faults, step - 1).value.kind.OutOfOrderFault?
    requires FaultAt(cfg.faults, step - 1).value in cfg.faults
    requires FaultAt(cfg.faults, step - 1).value.eventTimeOffset < 0
    requires pending.eventTime == Time(InstantOf(cfg, step - 1), true) && Demanding(pending)
    ensures var sample := ReDated(pending, FaultAt(cfg.faults, step - 1).value);
            && Demanding(sample)
            && sample.batterySOCPercent == pending.batterySOCPercent
            && 0 <= InstantOf(cfg, step - 1) - sample.eventTime.ns <= cfg.interval
            && sample.eventID !in KnownNames(cfg, nature, step)
            && FirstDraw(cfg, nature, TelemetryOf(cfg.deviceID, sample), step)
  {
    OpensMeans(cfg, step);
    var fault := FaultAt(cfg.faults, step - 1).value;
    hide Opens, FaultAt, InstantOf, Config.Valid, Padded;
    assert fault.eventID in RedatedNames(cfg) by {
      assert !Padded(fault.eventID) by { RedatedIsTrimmed(cfg, step - 1); }
    }
  }

  lemma RedatedIsTrimmed(cfg: Config, step: int)
    requires RedatedName(cfg, step).Some?
    ensures !Padded(RedatedName(cfg, step).value)
  {
    hide FaultAt, InstantOf, Padded;
  }

  lemma RedeliveredDraws(cfg: Config, nature: Nature, prior: Sample, step: int)
    requires cfg.Valid() && nature.NamesApart() && Avoids(nature, cfg) && Opens(cfg, step)
    requires FaultAt(cfg.faults, step - 1).value.kind.DuplicateFault?
    requires prior.eventID == NameOf(cfg, nature, step - 2)
    requires prior.eventTime == Time(InstantOf(cfg, step - 2), true)
    ensures 0 <= InstantOf(cfg, step - 1) - prior.eventTime.ns <= cfg.interval
    ensures prior.eventID !in KnownNames(cfg, nature, step)
    ensures FirstDraw(cfg, nature, TelemetryOf(cfg.deviceID, prior), step)
  {
    InstantsAdvance(cfg, step - 2);
    NaturalNamesApart(cfg, nature, step - 3, step - 2);
    hide Opens, FaultAt, InstantOf, ScheduleValid, Blank, RedatedNames, NaturalNames;
  }

  /** At the opening itself: the sample of the step before, still unseen. */
  lemma SecondDelivery(agent: Agent, cfg: Config, nature: Nature, plant: Plant, step: int, first: Telemetry)
    requires Set(agent, cfg, nature) && nature.NamesApart() && Avoids(nature, cfg)
    requires Ready(agent, cfg, nature, plant)
    requires Opens(cfg, step) && plant.sim.step + 1 == step
    requires Demanding(plant.sim.prior) && plant.sim.prior.batterySOCPercent == 30.0
    requires FirstDraw(cfg, nature, first, step) && plant.memory.state == StateOf(first)
    requires plant.db.telemetry.Keys == KnownNames(cfg, nature, step) + {first.eventID}
    ensures var envelope := HandedEnvelope(cfg, nature, plant.sim);
            Draws(agent, plant, envelope) && EventOf(envelope).value.eventID == NameOf(cfg, nature, step - 1)
  {
    hide *;
    var s := plant.sim;
    var envelope := HandedEnvelope(cfg, nature, s);
    SetMeans(agent, cfg, nature);
    ReadyMeans(agent, cfg, nature, plant, Tick(ZERO_TIME, Completes));
    HandedEvent(cfg, nature, s);
    OpensMeans(cfg, step);
    InstantsAdvance(cfg, s.step);
    UnseenSample(cfg, nature, step, first);
    SampleDraws(agent, cfg, plant, envelope, s.prior);
    NameOfEvent(cfg.deviceID, s.prior);
  }

  lemma NameOfEvent(deviceID: string, sample: Sample)
    ensures TelemetryOf(deviceID, sample).eventID == sample.eventID
  {
  }

  lemma UnseenSample(cfg: Config, nature: Nature, step: int, first: Telemetry)
    requires cfg.Valid() && nature.NamesApart() && Avoids(nature, cfg)
    requires Opens(cfg, step) && FirstDraw(cfg, nature, first, step)
    ensures cfg.interval > 0
    ensures NameOf(cfg, nature, step - 1) !in KnownNames(cfg, nature, step) + {first.eventID}
    ensures StateOf(first).updatedAt.ns < InstantOf(cfg, step - 1)
  {
    NaturalNamesApart(cfg, nature, step - 2, step - 1);
    NaturalNamesApart(cfg, nature, step - 3, step - 1);
    InstantsDiffer(cfg, step - 2, step - 1);
    hide Opens, FaultAt, InstantOf, ScheduleValid, Blank, RedatedNames, NaturalNames;
  }

  // ---------------------------------------------------------------------------------------------
  // Every unsafe schedule empties some battery

  predicate AllCalm(ticks: seq<Tick>) {
    forall i :: 0 <= i < |ticks| ==> Calm(ticks[i])
  }

  /** Nothing has happened to the battery so far, and nothing but made-up and old names is stored. */
  predicate Quiet(agent: Agent, cfg: Config, nature: Nature, plant: Plant, step: int)
    requires Opens(cfg, step)
  {
    && Ready(agent, cfg, nature, plant)
    && plant.sim.batterySOCPercent == 30.0
    && plant.memory.state == ZERO_STATE
    && plant.db.telemetry.Keys == KnownNames(cfg, nature, step)
    && (plant.sim.step > 0 ==> Demanding(plant.sim.prior) && plant.sim.prior.batterySOCPercent == 30.0)
  }

  /** Two commands, both for the charge of 30 percent: 30 to 20, and 20 to 10. */
  predicate Drains(applied: seq<Application>) {
    && |applied| == 2
    && applied[0].reportedSOC == 30.0 && applied[0].before == 30.0 && applied[0].after == 20.0
    && applied[1].reportedSOC == 30.0 && applied[1].before == 20.0 && applied[1].after == 10.0
  }

  lemma QuietMeans(agent: Agent, cfg: Config, nature: Nature, plant: Plant, step: int)
    requires Opens(cfg, step) && Quiet(agent, cfg, nature, plant, step)
    ensures Ready(agent, cfg, nature, plant) && Poised(cfg, nature, plant.sim)
    ensures plant.sim.batterySOCPercent == 30.0 && plant.memory.state == ZERO_STATE
    ensures plant.db.telemetry.Keys == KnownNames(cfg, nature, step)
    ensures forall name :: name in plant.db.telemetry <==> name in KnownNames(cfg, nature, step)
    ensures plant.sim.step > 0 ==> Demanding(plant.sim.prior) && plant.sim.prior.batterySOCPercent == 30.0
  {
    hide Poised, Seasoned, Intact, Refines, Demanding, KnownNames, Opens;
  }

  lemma QuietAgain(agent: Agent, cfg: Config, nature: Nature, plant: Plant, e: PlantEffect, step: int)
    requires Opens(cfg, step) && Quiet(agent, cfg, nature, plant, step)
    requires StepsOn(agent, cfg, nature, plant, e)
    requires e.plant.sim.batterySOCPercent == plant.sim.batterySOCPercent
    requires e.plant.db.telemetry == plant.db.telemetry && e.plant.memory.state == plant.memory.state
    ensures Quiet(agent, cfg, nature, e.plant, step)
  {
    hide Ready, Demanding, KnownNames, Opens, Advanced;
  }

  lemma StepsOnMeans(agent: Agent, cfg: Config, nature: Nature, plant: Plant, e: PlantEffect)
    requires StepsOn(agent, cfg, nature, plant, e)
    ensures e.ending.Running? && Ready(agent, cfg, nature, e.plant) && e.plant.sim.step == plant.sim.step + 1
    ensures Demanding(e.plant.sim.prior) && e.plant.sim.prior.batterySOCPercent == plant.sim.batterySOCPercent
  {
    hide Ready, Demanding, Advanced;
  }

  lemma CalmParts(ticks: seq<Tick>)
    requires AllCalm(ticks) && ticks != []
    ensures Calm(ticks[0]) && AllCalm(ticks[1..])
  {
    hide Calm;
  }

  /** The last two steps: the one ahead of the opening draws, and the opening draws again. */
  lemma LastTwoSteps(
    agent: Agent, hp: HealthPolicy, cfg: Config, nature: Nature, plant: Plant, ticks: seq<Tick>, step: int)
    requires Set(agent, cfg, nature) && nature.NamesApart() && Avoids(nature, cfg)
    requires Opens(cfg, step) && Quiet(agent, cfg, nature, plant, step)
    requires AllCalm(ticks) && |ticks| == 2 && plant.sim.step + 2 == step
    ensures agent.policy.Valid() && cfg.batteryCapacityKWh > 0.0
    ensures var e := PlantLoop(agent, hp, cfg, nature, plant, ticks);
            e.ending.Running? && Drains(e.applied) && e.plant.sim.batterySOCPercent == 10.0
  {
    hide *;
    SetMeans(agent, cfg, nature);
    PolicyIsValid(agent, cfg);
    QuietMeans(agent, cfg, nature, plant, step);
    CalmParts(ticks);
    CalmParts(ticks[1..]);
    FirstDelivery(agent, cfg, nature, plant, step);
    DrawsMeans(agent, plant, HandedEnvelope(cfg, nature, plant.sim));
    var first := PlantInterval(agent, hp, cfg, nature, plant, ticks[0]);
    var event := EventOf(HandedEnvelope(cfg, nature, plant.sim)).value;
    CalmStepsOn(agent, hp, cfg, nature, plant, ticks[0]);
    StepsOnMeans(agent, cfg, nature, plant, first);
    DrawingStep(agent, hp, cfg, nature, plant, ticks[0]);
    SecondDelivery(agent, cfg, nature, first.plant, step, event);
    var second := PlantInterval(agent, hp, cfg, nature, first.plant, ticks[1..][0]);
    CalmStepsOn(agent, hp, cfg, nature, first.plant, ticks[1..][0]);
    StepsOnMeans(agent, cfg, nature, first.plant, second);
    DrawingStep(agent, hp, cfg, nature, first.plant, ticks[1..][0]);
    PlantLoopUnfolds(agent, hp, cfg, nature, plant, ticks);
    PlantLoopUnfolds(agent, hp, cfg, nature, first.plant, ticks[1..]);
    PlantLoopUnfolds(agent, hp, cfg, nature, second.plant, ticks[1..][1..]);
    DrainsFrom(first.applied, second.applied);
  }

  lemma DrainsFrom(first: seq<Application>, second: seq<Application>)
    requires |first| == |second| == 1
    requires first[0].reportedSOC == 30.0 && first[0].before == 30.0 && first[0].after == 20.0
    requires second[0].reportedSOC == 30.0 && second[0].before == 20.0 && second[0].after == 10.0
    ensures Drains(first + (second + [])) && Drains(first + second)
  {
  }

  lemma {:induction false} QuietThenDrains(
    agent: Agent, hp: HealthPolicy, cfg: Config, nature: Nature, plant: Plant, ticks: seq<Tick>, step: int)
    requires Set(agent, cfg, nature) && nature.NamesApart() && Avoids(nature, cfg)
    requires Opens(cfg, step) && Quiet(agent, cfg, nature, plant, step)
    requires AllCalm(ticks) && |ticks| >= 2 && plant.sim.step + |ticks| == step
    ensures agent.policy.Valid() && cfg.batteryCapacityKWh > 0.0
    ensures var e := PlantLoop(agent, hp, cfg, nature, plant, ticks);
            e.ending.Running? && Drains(e.applied) && e.plant.sim.batterySOCPercent == 10.0
    decreases |ticks|
  {
    hide *;
    if |ticks| == 2 {
      LastTwoSteps(agent, hp, cfg, nature, plant, ticks, step);
    } else {
      SetMeans(agent, cfg, nature);
      PolicyIsValid(agent, cfg);
      QuietMeans(agent, cfg, nature, plant, step);
      CalmParts(ticks);
      QuietDelivery(cfg, nature, plant.sim, step);
      var first := PlantInterval(agent, hp, cfg, nature, plant, ticks[0]);
      CalmStepsOn(agent, hp, cfg, nature, plant, ticks[0]);
      StepsOnMeans(agent, cfg, nature, plant, first);
      UneventfulStep(agent, hp, cfg, nature, plant, ticks[0]);
      QuietAgain(agent, cfg, nature, plant, first, step);
      QuietThenDrains(agent, hp, cfg, nature, first.plant, ticks[1..], step);
      PlantLoopUnfolds(agent, hp, cfg, nature, plant, ticks);
      assert [] + PlantLoop(agent, hp, cfg, nature, first.plant, ticks[1..]).applied
             == PlantLoop(agent, hp, cfg, nature, first.plant, ticks[1..]).applied;
    }
  }

  /** The converse of the reserve theorem. Take any valid schedule on which some step opens the loop, give
      the household a battery of seven interval-hours, and let nothing go wrong: for every lawful weather
      that names its samples apart from each other and from the names the schedule makes up, from every
      database that already knows the earlier deliveries and nothing else of the device, the charge stays
      at 30 percent up to the last two steps and then goes to 20 and to 10, half the reserve. */
  lemma UnsafeScheduleDrains(
    agent: Agent, hp: HealthPolicy, cfg: Config, nature: Nature, db: Database, ticks: seq<Tick>, step: int)
    requires cfg.Valid() && Sized(cfg) && Wired(agent, cfg)
    requires nature.Lawful() && nature.NamesApart() && Avoids(nature, cfg)
    requires Opens(cfg, step) && PrimedFor(cfg, nature, step, db)
    requires AllCalm(ticks) && |ticks| == step
    ensures agent.policy.Valid() && cfg.batteryCapacityKWh > 0.0
    ensures var plant := StartedPlant(cfg, nature, db);
            var e := PlantLoop(agent, hp, Restored(cfg, db), nature, plant, ticks);
            && plant.sim.batterySOCPercent == 30.0
            && e.ending.Running?
            && Drains(e.applied)
            && e.plant.sim.batterySOCPercent == 10.0
  {
    hide *;
    PrimedMeans(cfg, nature, step, db);
    OpensMeans(cfg, step);
    SetFrom(agent, cfg, nature);
    StartsQuiet(agent, cfg, nature, db, step);
    QuietThenDrains(agent, hp, cfg, nature, StartedPlant(cfg, nature, db), ticks, step);
    QuietMeans(agent, cfg, nature, StartedPlant(cfg, nature, db), step);
  }

  lemma SetFrom(agent: Agent, cfg: Config, nature: Nature)
    requires cfg.Valid() && Sized(cfg) && nature.Lawful() && Wired(agent, cfg)
    ensures Set(agent, cfg, nature)
  {
    hide Config.Valid, Sized, Nature.Lawful, Wired;
  }

  lemma StartsQuiet(agent: Agent, cfg: Config, nature: Nature, db: Database, step: int)
    requires Set(agent, cfg, nature) && Opens(cfg, step)
    requires Intact(db) && Restored(cfg, db) == cfg
    requires RestoredMemory(db, cfg.deviceID) == Memory(ZERO_STATE, ZERO_HEALTH)
    requires db.telemetry.Keys == KnownNames(cfg, nature, step)
    ensures var plant := StartedPlant(cfg, nature, db);
            Quiet(agent, cfg, nature, plant, step) && plant.sim.step == 0
  {
    hide *;
    SetMeans(agent, cfg, nature);
    StartedPlantIsSound(agent, cfg, nature, db);
    StartParts(cfg, nature, db);
    QuietFrom(agent, cfg, nature, StartedPlant(cfg, nature, db), step);
  }

  lemma StartParts(cfg: Config, nature: Nature, db: Database)
    requires Sized(cfg) && nature.Lawful() && Restored(cfg, db) == cfg
    ensures var plant := StartedPlant(cfg, nature, db);
            && plant.db == db
            && plant.memory == RestoredMemory(db, cfg.deviceID)
            && Seasoned(plant.sim)
            && plant.sim.batterySOCPercent == 30.0
  {
    StartedDayIsSeasoned(nature, SimState(
      Time(cfg.start.ns, true), cfg.startingBatterySOCPercent, 0, ZERO_TIME, 0.0, 0.0, 0.0, false, 0,
      ZERO_SAMPLE, ZERO_SAMPLE));
    hide Seasoned, Restored, RestoredMemory;
  }

  lemma QuietFrom(agent: Agent, cfg: Config, nature: Nature, plant: Plant, step: int)
    requires Opens(cfg, step)
    requires PlantSound(agent, cfg, nature, plant) && Seasoned(plant.sim) && plant.sim.step == 0
    requires plant.sim.batterySOCPercent == 30.0
    requires plant.memory == Memory(ZERO_STATE, ZERO_HEALTH)
    requires plant.db.telemetry.Keys == KnownNames(cfg, nature, step)
    ensures Quiet(agent, cfg, nature, plant, step)
  {
    hide PlantSound, Seasoned, KnownNames, Opens;
  }

  // ---------------------------------------------------------------------------------------------
  // The schedule condition is exact

  /** A household keeps its reserve through a run: the charge never goes below it, or below where it started
      if it started lower. */
  ghost predicate KeepsReserve(
    agent: Agent, hp: HealthPolicy, cfg: Config, nature: Nature, db: Database, ticks: seq<Tick>)
  {
    cfg.Valid() && nature.Lawful() && Wired(agent, cfg) && Intact(db) ==>
      && agent.policy.Valid()
      && Restored(cfg, db).batteryCapacityKWh > 0.0
      && var plant := StartedPlant(cfg, nature, db);
         var e := PlantLoop(agent, hp, Restored(cfg, db), nature, plant, ticks);
         !AnyBelow(e.applied, Min(plant.sim.batterySOCPercent, MINIMUM_DISCHARGE_SOC_PERCENT))
  }

  /** No household with this timeline and these faults ever goes below its reserve. */
  ghost predicate NeverSinks(cfg: Config) {
    forall agent, hp, other, nature, db, ticks ::
      SameTimeline(cfg, other) ==> KeepsReserve(agent, hp, other, nature, db, ticks)
  }

  function MaxLength(names: seq<string>): nat {
    if names == [] then 0
    else if |names[0]| >= MaxLength(names[1..]) then |names[0]| else MaxLength(names[1..])
  }

  lemma MaxLengthBounds(names: seq<string>, i: nat)
    requires i < |names|
    ensures |names[i]| <= MaxLength(names)
  {
    if i > 0 {
      MaxLengthBounds(names[1..], i - 1);
    }
  }

  /** Names longer than the given length, a length of its own for each instant. */
  function LongName(length: nat, t: int): string {
    seq(length + 1 + (if t >= 0 then 2 * t else -2 * t - 1), _ => 'h')
  }

  function ScheduledNames(cfg: Config): seq<string> {
    seq(|cfg.faults|, i requires 0 <= i < |cfg.faults| => cfg.faults[i].eventID)
  }

  /** No sun, even load and price, and names of its own for every sample. */
  function EvenNature(cfg: Config): Nature {
    Nature(_ => 0.5, _ => 0.0, _ => 0.5, (_, t) => LongName(MaxLength(ScheduledNames(cfg)), t))
  }

  lemma EvenNatureAvoids(cfg: Config)
    ensures var nature := EvenNature(cfg);
            nature.Lawful() && nature.NamesApart() && Avoids(nature, cfg)
  {
    var length := MaxLength(ScheduledNames(cfg));
    forall t: int ensures !Blank(LongName(length, t)) && !Padded(LongName(length, t)) {
      assert LongName(length, t)[0] == 'h';
    }
    forall t: int, t': int | LongName(length, t) == LongName(length, t') ensures t == t' {
      assert |LongName(length, t)| == |LongName(length, t')|;
    }
    forall t: int ensures LongName(length, t) !in RedatedNames(cfg) {
      ScheduledNamesAreShort(cfg);
    }
  }

  lemma ScheduledNamesAreShort(cfg: Config)
    ensures forall name :: name in RedatedNames(cfg) ==> |name| <= MaxLength(ScheduledNames(cfg))
  {
    forall name | name in RedatedNames(cfg) ensures |name| <= MaxLength(ScheduledNames(cfg)) {
      var f :| f in cfg.faults && f.eventID == name;
      var i :| 0 <= i < |cfg.faults| && cfg.faults[i] == f;
      MaxLengthBounds(ScheduledNames(cfg), i);
    }
  }

  lemma DrainsBelow(applied: seq<Application>)
    requires Drains(applied)
    ensures AnyBelow(applied, Min(30.0, MINIMUM_DISCHARGE_SOC_PERCENT))
  {
    assert applied[1].after < 20.0;
  }

  function CalmTicks(n: nat): (ticks: seq<Tick>)
    ensures |ticks| == n && AllCalm(ticks)
  {
    if n == 0 then [] else [Tick(Time(1, true), Completes)] + CalmTicks(n - 1)
  }

  /** An opening step sinks some household. */
  lemma UnsafeSinks(cfg: Config, step: int)
    requires cfg.Valid() && Opens(cfg, step)
    ensures !NeverSinks(cfg)
  {
    hide *;
    var other := Resized(cfg);
    var hp := HealthPolicy(1, 2);
    ResizedIsValid(cfg);
    TimelineOpens(cfg, other, step);
    ConfiguredAgentIsWired(other, "", 0);
    var agent := Agent("", other.deviceID, NewPolicy(Finite(other.batteryCapacityKWh), other.interval).value, 0);
    var nature := EvenNature(other);
    EvenNatureAvoids(other);
    OpensMeans(other, step);
    var ticks := CalmTicks(step);
    var launch := SomeRunPrimes(other, nature, step);
    var db := launch.On(EMPTY_DATABASE).db;
    UnsafeScheduleDrains(agent, hp, other, nature, db, ticks, step);
    PolicyIsValid(agent, other);
    PrimedMeans(other, nature, step, db);
    var plant := StartedPlant(other, nature, db);
    DrainsBelow(PlantLoop(agent, hp, Restored(other, db), nature, plant, ticks).applied);
    ReserveLost(agent, hp, other, nature, db, ticks);
    if NeverSinks(cfg) {
      NeverMeans(cfg, agent, hp, other, nature, db, ticks);
    }
  }

  lemma TimelineOpens(cfg: Config, other: Config, step: int)
    requires SameTimeline(cfg, other)
    ensures Opens(cfg, step) <==> Opens(other, step)
    ensures cfg.deviceID == other.deviceID
  {
    SameOpenings(cfg, other, step);
    hide Opens;
  }

  lemma ReserveLost(agent: Agent, hp: HealthPolicy, cfg: Config, nature: Nature, db: Database, ticks: seq<Tick>)
    requires cfg.Valid() && nature.Lawful() && Wired(agent, cfg) && Intact(db)
    requires agent.policy.Valid() && Restored(cfg, db).batteryCapacityKWh > 0.0
    requires StartedPlant(cfg, nature, db).sim.batterySOCPercent == 30.0
    requires AnyBelow(PlantLoop(agent, hp, Restored(cfg, db), nature, StartedPlant(cfg, nature, db), ticks).applied,
                      Min(30.0, MINIMUM_DISCHARGE_SOC_PERCENT))
    ensures !KeepsReserve(agent, hp, cfg, nature, db, ticks)
  {
    hide PlantLoop, StartedPlant, Restored, AnyBelow, Intact, Config.Valid, Nature.Lawful, Wired, Min;
  }

  lemma NeverMeans(
    cfg: Config, agent: Agent, hp: HealthPolicy, other: Config, nature: Nature, db: Database, ticks: seq<Tick>)
    requires NeverSinks(cfg) && SameTimeline(cfg, other)
    ensures KeepsReserve(agent, hp, other, nature, db, ticks)
  {
    hide KeepsReserve, SameTimeline;
  }

  /** On a safe schedule every household keeps its reserve. */
  lemma SafeKeepsReserve(
    cfg: Config, agent: Agent, hp: HealthPolicy, other: Config, nature: Nature, db: Database, ticks: seq<Tick>)
    requires SafeSchedule(cfg) && SameTimeline(cfg, other)
    ensures KeepsReserve(agent, hp, other, nature, db, ticks)
  {
    if other.Valid() && nature.Lawful() && Wired(agent, other) && Intact(db) {
      forall step ensures !Opens(other, step) {
        TimelineOpens(cfg, other, step);
      }
      ReserveFloor(agent, hp, other, nature, db, ticks);
      RunBreaksExactly(agent, hp, other, nature, db, ticks);
    }
    hide PlantLoop, StartedPlant, Restored, Intact, Config.Valid, Nature.Lawful, Wired, Min, Opens;
  }

  /** The schedule condition of the reserve theorem is exact: it holds of a timeline and its faults if and
      only if no household with them, in any weather, from any intact database and whatever befalls it,
      ever goes below its reserve. */
  lemma SafeIffNeverSinks(cfg: Config)
    requires cfg.Valid()
    ensures SafeSchedule(cfg) <==> NeverSinks(cfg)
  {
    if SafeSchedule(cfg) {
      forall agent, hp, other, nature, db, ticks | SameTimeline(cfg, other)
        ensures KeepsReserve(agent, hp, other, nature, db, ticks)
      {
        SafeKeepsReserve(cfg, agent, hp, other, nature, db, ticks);
      }
    } else {
      var step :| Opens(cfg, step);
      UnsafeSinks(cfg, step);
    }
    hide KeepsReserve, SameTimeline, Opens, Config.Valid;
  }

  // ---------------------------------------------------------------------------------------------
  // Two such schedules, from the empty database

  function Hourly(faults: FaultSchedule): Config {
    Config(Time(NANOS_PER_HOUR, true), NANOS_PER_HOUR, "home", 7.0, 30.0, 1.0, 2.0, 0.5, faults)
  }

  lemma HourlyIsValid(faults: FaultSchedule)
    requires ScheduleValid(faults)
    ensures Hourly(faults).Valid() && Sized(Hourly(faults))
    ensures forall step :: InstantOf(Hourly(faults), step) == step * NANOS_PER_HOUR
  {
    assert "home"[0] == 'h';
    hide ScheduleValid;
  }

  lemma EmptyIsPrimed(cfg: Config, nature: Nature, step: int)
    requires Opens(cfg, step) && KnownNames(cfg, nature, step) == {}
    ensures PrimedFor(cfg, nature, step, EMPTY_DATABASE)
  {
    EmptyStart(cfg.deviceID);
    EmptyMemory(cfg.deviceID);
    hide Intact, RestoredMemory, Opens, KnownNames;
  }

  const REDATED: FaultSchedule :=
    [ Fault(1, 0, OutOfOrderFault, -1, "late", 0, NoMeasurement, NonFinite),
      Fault(2, 0, DuplicateFault, 0, "", 0, NoMeasurement, NonFinite) ]

  lemma RedatedOpens()
    ensures ScheduleValid(REDATED)
    ensures Opens(Hourly(REDATED), 2)
    ensures RedatedNames(Hourly(REDATED)) == {"late"}
    ensures forall nature :: KnownNames(Hourly(REDATED), nature, 2) == {}
  {
    var cfg := Hourly(REDATED);
    var f, g := REDATED[0], REDATED[1];
    assert "late"[0] == 'l' && "late"[3] == 'e' && !Padded("late");
    assert f.ActiveAt(1) && !f.ActiveAt(2) && g.ActiveAt(2) && !f.Overlaps(g);
    assert REDATED[1..] == [g];
    assert FaultAt(REDATED, 1) == Some(f) && FaultAt(REDATED, 2) == Some(g);
    assert RedatedName(cfg, 1) == Some("late");
    assert f in cfg.faults;
    assert "late" in RedatedNames(cfg);
    forall name | name in RedatedNames(cfg) ensures name == "late" {
    }
  }

  /** A re-dated event at step 1 and one redelivery at step 2, in any weather that names no sample "late": the
      re-dated event discharges under its own name, and the sample of step 1, taken before, is then decided
      on as if nothing had happened. The charge goes 30, 20, 10. */
  lemma RedeliveryAfterReDatedEvent(agent: Agent, hp: HealthPolicy, nature: Nature, ticks: seq<Tick>)
    requires Wired(agent, Hourly(REDATED)) && nature.Lawful() && nature.NamesApart()
    requires forall t :: nature.eventID("home", t) != "late"
    requires AllCalm(ticks) && |ticks| == 2
    ensures Hourly(REDATED).Valid() && agent.policy.Valid()
    ensures var plant := StartedPlant(Hourly(REDATED), nature, EMPTY_DATABASE);
            var e := PlantLoop(agent, hp, Hourly(REDATED), nature, plant, ticks);
            && plant.sim.batterySOCPercent == 30.0
            && Drains(e.applied)
            && e.plant.sim.batterySOCPercent == 10.0
  {
    var cfg := Hourly(REDATED);
    RedatedOpens();
    HourlyIsValid(REDATED);
    assert Avoids(nature, cfg);
    hide *;
    EmptyIsPrimed(cfg, nature, 2);
    PrimedMeans(cfg, nature, 2, EMPTY_DATABASE);
    UnsafeScheduleDrains(agent, hp, cfg, nature, EMPTY_DATABASE, ticks, 2);
  }

  const RENAMED: FaultSchedule :=
    [ Fault(2, 2, OutOfOrderFault, -1, "late", 0, NoMeasurement, NonFinite),
      Fault(4, 0, DuplicateFault, 0, "", 0, NoMeasurement, NonFinite) ]

  /** A re-dated event that repeats its name is a duplicate and runs nothing, so a redelivery after it is
      safe. */
  lemma RepeatedNameIsSafe()
    ensures ScheduleValid(RENAMED) && SafeSchedule(Hourly(RENAMED))
  {
    var cfg := Hourly(RENAMED);
    var f, g := RENAMED[0], RENAMED[1];
    assert "late"[0] == 'l' && "late"[3] == 'e' && !Padded("late");
    forall step ensures f.ActiveAt(step) <==> 2 <= step <= 3 {
      ActiveIffMeant(f, step);
    }
    forall step ensures g.ActiveAt(step) <==> step == 4 {
      ActiveIffMeant(g, step);
    }
    assert !f.Overlaps(g);
    assert RENAMED[1..] == [g] && [g][1..] == [];
    forall step ensures FaultAt(RENAMED, step) ==
                        if 2 <= step <= 3 then Some(f) else if step == 4 then Some(g) else None
    {
      assert FaultAt([g], step) == if g.ActiveAt(step) then Some(g) else None;
    }
    assert RedatedName(cfg, 2) == RedatedName(cfg, 3) == Some("late");
    assert NamedBefore(cfg, 3);
    hide FaultAt, Padded, RedatedName, NamedBefore;
  }

  const REPEATED: FaultSchedule :=
    [ Fault(1, 0, MissingHeartbeatFault, 0, "", 0, NoMeasurement, NonFinite),
      Fault(2, 2, DuplicateFault, 0, "", 0, NoMeasurement, NonFinite) ]

  lemma RepeatedOpens()
    ensures ScheduleValid(REPEATED)
    ensures Opens(Hourly(REPEATED), 3)
    ensures RedatedNames(Hourly(REPEATED)) == {}
    ensures forall nature :: KnownNames(Hourly(REPEATED), nature, 3) == {}
  {
    var f, g := REPEATED[0], REPEATED[1];
    assert f.ActiveAt(1) && !f.ActiveAt(2) && !f.ActiveAt(3) && g.ActiveAt(2) && g.ActiveAt(3) && !f.Overlaps(g);
    assert REPEATED[1..] == [g];
    assert FaultAt(REPEATED, 1) == Some(f) && FaultAt(REPEATED, 2) == Some(g) && FaultAt(REPEATED, 3) == Some(g);
  }

  /** A missing heartbeat at step 1 and redeliveries at steps 2 and 3, in any weather: the first redelivers the
      unseen sample of step 1, the second the unseen sample of step 2, taken before the first discharged.
      The charge goes 30, 30, 20, 10. */
  lemma RepeatedRedelivery(agent: Agent, hp: HealthPolicy, nature: Nature, ticks: seq<Tick>)
    requires Wired(agent, Hourly(REPEATED)) && nature.Lawful() && nature.NamesApart()
    requires AllCalm(ticks) && |ticks| == 3
    ensures Hourly(REPEATED).Valid() && agent.policy.Valid()
    ensures var plant := StartedPlant(Hourly(REPEATED), nature, EMPTY_DATABASE);
            var e := PlantLoop(agent, hp, Hourly(REPEATED), nature, plant, ticks);
            && plant.sim.batterySOCPercent == 30.0
            && Drains(e.applied)
            && e.plant.sim.batterySOCPercent == 10.0
  {
    var cfg := Hourly(REPEATED);
    RepeatedOpens();
    HourlyIsValid(REPEATED);
    assert Avoids(nature, cfg);
    hide *;
    EmptyIsPrimed(cfg, nature, 3);
    PrimedMeans(cfg, nature, 3, EMPTY_DATABASE);
    UnsafeScheduleDrains(agent, hp, cfg, nature, EMPTY_DATABASE, ticks, 3);
  }
}
