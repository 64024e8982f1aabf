/** The shipped day of unreliable telemetry: what the scenario file expects of it, step by step. */
module Scenario {
  import opened Basics
  import opened Observations
  import opened LatestState
  import opened Health
  import opened ControlPolicy
  import opened Classifier
  import opened Storage
  import opened Runtime
  import opened Records
  import Safety
  import opened Battery
  import opened Faults
  import opened Simulator
  import opened ClosedLoop
  import opened OpenLoop
  import opened FreshStart
  import opened Outcomes
  import opened Timeline
  import opened Profiles

  const HOUR := 3_600_000_000_000

  /** Midnight of 1 January 2026, UTC. */
  const START := 63_902_822_400_000_000_000

  function Once(step: Int64, kind: FaultKind): Fault {
    Fault(step, 0, kind, 0, "", 0, NoMeasurement, NonFinite)
  }

  const FAULTS: FaultSchedule :=
    [ Once(2, MissingValueFault).(measurement := PVPower),
      Once(3, InvalidMeasurementFault).(measurement := BatterySOC, value := Finite(-5.0)),
      Once(4, MissingHeartbeatFault),
      Once(5, UnavailableFault),
      Once(6, DelayFault).(delay := 3 * HOUR),
      Once(7, DuplicateFault),
      Once(8, OutOfOrderFault).(eventTimeOffset := -5 * HOUR, eventID := "unreliable-ooo-1") ]

  const SHIPPED := Config(Time(START, true), 2 * HOUR, "unreliable-home-001", 10.0, 50.0, 6.0, 0.4, 0.30, FAULTS)

  lemma FaultsAreValid(i: nat)
    requires i < |FAULTS|
    ensures FAULTS[i].Valid()
    ensures FAULTS[i].step == i + 2 && FAULTS[i].repeat == 0
  {
    AcceptedFault(FAULTS[i]);
    assert "unreliable-ooo-1"[0] == 'u';
    hide Fault.Valid, Rejects;
  }

  lemma FaultIsActive(i: nat, step: int)
    requires i < |FAULTS|
    ensures FAULTS[i].ActiveAt(step) <==> step == i + 2
  {
    FaultsAreValid(i);
    ActiveIffMeant(FAULTS[i], step);
    hide Fault.Valid, Fault.ActiveAt;
  }

  lemma {:induction false} FaultAfter(i: nat, step: int)
    requires i <= |FAULTS|
    ensures FaultAt(FAULTS[i..], step) == if i + 2 <= step < |FAULTS| + 2 then Some(FAULTS[step - 2]) else None
    decreases |FAULTS| - i
  {
    if i < |FAULTS| {
      FaultIsActive(i, step);
      FaultAfter(i + 1, step);
      assert FAULTS[i..][1..] == FAULTS[i + 1..];
    }
    hide Fault.ActiveAt;
  }

  lemma ShippedFaults(step: int)
    ensures |FAULTS| == 7
    ensures FaultAt(FAULTS, step) == if 2 <= step <= 8 then Some(FAULTS[step - 2]) else None
  {
    FaultAfter(0, step);
    assert FAULTS[0..] == FAULTS;
    hide FaultAt;
  }

  lemma ShippedIsValid()
    ensures SHIPPED.Valid()
  {
    forall i | 0 <= i < |FAULTS| ensures FAULTS[i].Valid() {
      FaultsAreValid(i);
    }
    forall i, j | 0 <= i < j < |FAULTS| ensures !FAULTS[i].Overlaps(FAULTS[j]) {
      FaultsAreValid(i);
      FaultsAreValid(j);
      OverlapIffShared(FAULTS[i], FAULTS[j]);
    }
    assert "unreliable-home-001"[0] == 'u';
    assert 12 * (2 * HOUR) == 86_400_000_000_000;
    AcceptedConfig(SHIPPED);
    hide Fault.Valid, Fault.Overlaps, Config.Valid;
  }

  // ---------------------------------------------------------------------------------------------
  // The schedule, step by step

  function At(step: int): int {
    START + (step - 1) * (2 * HOUR)
  }

  lemma NotPadded()
    ensures !Padded("unreliable-ooo-1")
  {
    assert "unreliable-ooo-1"[0] == 'u' && "unreliable-ooo-1"[15] == '1' && |"unreliable-ooo-1"| == 16;
  }

  lemma Redated(step: int)
    ensures RedatedName(SHIPPED, step) == if step == 8 then Some("unreliable-ooo-1") else None
  {
    ShippedFaults(step);
    NotPadded();
    hide FaultAt, Padded;
  }

  lemma Arrivals(step: int)
    requires 1 <= step <= 12
    ensures InstantOf(SHIPPED, step) == At(step)
    ensures ArrivalTime(SHIPPED, step) == At(step) + if step == 6 then 3 * HOUR else 0
    ensures EventTime(SHIPPED, step)
            == if step == 7 then At(6) else if step == 8 then At(8) - 5 * HOUR else At(step)
    ensures Age(SHIPPED, step)
            == if step == 6 then 3 * HOUR else if step == 7 then 2 * HOUR else if step == 8 then 5 * HOUR else 0
    ensures DeliversEvent(SHIPPED, step) <==> !(2 <= step <= 5)
    ensures KindAt(SHIPPED, step) == Some(MissingHeartbeatFault) <==> step == 4
    ensures KindAt(SHIPPED, step) == Some(UnavailableFault) <==> step == 5
    ensures step == 2 ==> Refusal(SHIPPED, step) == MissingPVPower
    ensures step == 3 ==> Refusal(SHIPPED, step) == BadBatterySOC
  {
    ShippedFaults(step);
    Redated(step);
    hide FaultAt, RedatedName, Padded;
  }

  lemma Freshness(step: int)
    requires 1 <= step <= 12
    ensures Fresh(SHIPPED, step) <==> DeliversEvent(SHIPPED, step) && step != 7
  {
    ShippedFaults(step);
    ShippedFaults(6);
    Arrivals(step);
    forall j ensures RedatedName(SHIPPED, j) == if j == 8 then Some("unreliable-ooo-1") else None {
      Redated(j);
    }
    hide FaultAt, RedatedName, DeliversEvent, ArrivalTime, EventTime, Age;
  }

  lemma {:induction false} NewestAt(step: nat)
    requires step <= 12
    ensures Newest(SHIPPED, step)
            == if step == 0 then None
               else if step <= 5 then Some(At(1))
               else if step <= 8 then Some(At(6))
               else Some(At(step))
  {
    if step > 0 {
      NewestAt(step - 1);
      Freshness(step);
      Arrivals(step);
    }
    hide Fresh, DeliversEvent, EventTime, ArrivalTime, Age, KindAt, Refusal, InstantOf;
  }

  const DISPOSITIONS: seq<Disposition> :=
    [ Accepted, Rejected, Rejected, Missing, Unavailable, Accepted, Duplicate, HistoryOnly, Accepted, Accepted,
      Accepted, Accepted ]

  const STATUSES: seq<HealthStatus> :=
    [Online, Invalid, Invalid, Invalid, Offline, Stale, Stale, Stale, Online, Online, Online, Online]

  lemma VerdictAt(step: nat)
    requires 1 <= step <= 12
    ensures Verdict(SHIPPED, step) == DISPOSITIONS[step - 1]
    ensures Verdict(SHIPPED, step).Accepted? && Age(SHIPPED, step) <= SHIPPED.interval <==> step == 1 || step >= 9
  {
    Arrivals(step);
    Freshness(step);
    NewestAt(step - 1);
    hide Fresh, DeliversEvent, EventTime, ArrivalTime, Age, KindAt, Refusal, InstantOf, Newest;
  }

  // ---------------------------------------------------------------------------------------------
  // The health, step by step

  /** Each interval begins when the one before is over. */
  function Clock(): (nows: seq<Time>)
    ensures |nows| == 12
  {
    seq(12, i => Time(At(i + 1), true))
  }

  const POLICY := HealthPolicy(4 * HOUR, 6 * HOUR)

  /** What the file expects after a step, with the reason and the last contact that go with it. */
  predicate HealthIs(step: nat, status: HealthStatus, reason: Reason, contact: int)
    requires step <= 12
  {
    var health := ScheduledHealth(SHIPPED, POLICY, Clock(), step);
    health.status == status && health.reason == reason && health.lastContactAt == Time(contact, true)
  }

  lemma HealthStep(step: nat, d: Disposition, late: bool, at: int)
    requires 1 <= step <= 12
    requires d == DISPOSITIONS[step - 1] && (late <==> step == 6 || step == 8)
    requires at == At(step) + (if step == 6 then 3 * HOUR else 0)
    ensures ScheduledHealth(SHIPPED, POLICY, Clock(), step)
            == JudgedHealth(ScheduledHealth(SHIPPED, POLICY, Clock(), step - 1), AgedState(SHIPPED, step - 1), POLICY,
                            d, Refusal(SHIPPED, step), late, Time(at, true))
  {
    Arrivals(step);
    VerdictAt(step);
    hide Verdict, Fresh, DeliversEvent, EventTime, ArrivalTime, Age, KindAt, Refusal, InstantOf, Newest, JudgedHealth;
  }

  lemma AgeOfState(step: nat)
    requires step == 3 || step == 7
    ensures AgedState(SHIPPED, step).updatedAt == Time(At(if step == 3 then 1 else 6), true)
  {
    NewestAt(step);
    hide Newest;
  }

  lemma HealthIsIf(step: nat, status: HealthStatus, reason: Reason, contact: int)
    requires step <= 12
    requires var health := ScheduledHealth(SHIPPED, POLICY, Clock(), step);
             health.status == status && health.reason == reason && health.lastContactAt == Time(contact, true)
    ensures HealthIs(step, status, reason, contact)
  {
    hide ScheduledHealth;
  }

  lemma HealthIsMeans(step: nat, status: HealthStatus, reason: Reason, contact: int)
    requires step <= 12 && HealthIs(step, status, reason, contact)
    ensures var health := ScheduledHealth(SHIPPED, POLICY, Clock(), step);
            health.status == status && health.reason == reason && health.lastContactAt == Time(contact, true)
  {
    hide ScheduledHealth;
  }

  /** The health after the kinds of interval in which something arrives or is reported missing. */
  lemma JudgedAtOnce(prior: DeviceHealth, state: State, reason: Reason, at: Time)
    ensures var h := JudgedHealth(prior, state, POLICY, Accepted, reason, false, at);
            h.status == Online && h.reason == NoReason && h.lastContactAt == at
    ensures var h := JudgedHealth(prior, state, POLICY, Accepted, reason, true, at);
            h.status == Stale && h.reason == ArrivedLate && h.lastContactAt == at
    ensures var h := JudgedHealth(prior, state, POLICY, Rejected, reason, false, at);
            h.status == Invalid && h.reason == reason && h.lastContactAt == at
    ensures var h := JudgedHealth(prior, state, POLICY, Unavailable, reason, false, at);
            h.status == Offline && h.reason == SourceUnavailable && h.lastContactAt == prior.lastContactAt
    ensures forall late :: JudgedHealth(prior, state, POLICY, Duplicate, reason, late, at) == prior
  {
  }

  /** Silence two hours after the last contact leaves an invalidity standing. */
  lemma JudgedSilence(prior: DeviceHealth, state: State, reason: Reason, at: Time)
    requires prior.status.Invalid? && prior.lastContactAt == Time(at.ns - 2 * HOUR, true)
    ensures var h := JudgedHealth(prior, state, POLICY, Missing, reason, false, at);
            h.status == Invalid && h.reason == prior.reason && h.lastContactAt == prior.lastContactAt
  {
  }

  /** An old event while the latest state is four hours old. */
  lemma JudgedOld(prior: DeviceHealth, state: State, reason: Reason, at: Time)
    requires !prior.status.Invalid? && state.updatedAt.ns == at.ns - 4 * HOUR != 0
    ensures var h := JudgedHealth(prior, state, POLICY, HistoryOnly, reason, true, at);
            h.status == Stale && h.reason == LatestEventTooOld && h.lastContactAt == at
  {
  }

  lemma HealthAtNight()
    ensures HealthIs(1, Online, NoReason, At(1))
    ensures HealthIs(2, Invalid, MissingPVPower, At(2))
    ensures HealthIs(3, Invalid, BadBatterySOC, At(3))
  {
    hide ScheduledHealth, JudgedHealth, AgedState, Refusal, HealthIs, At, Clock, ArrivalTime, EventTime, Age, KindAt,
      DeliversEvent, InstantOf;
    HealthStep(1, Accepted, false, At(1));
    HealthStep(2, Rejected, false, At(2));
    HealthStep(3, Rejected, false, At(3));
    Arrivals(2);
    Arrivals(3);
    JudgedAtOnce(ScheduledHealth(SHIPPED, POLICY, Clock(), 0), AgedState(SHIPPED, 0), Refusal(SHIPPED, 1),
                 Time(At(1), true));
    JudgedAtOnce(ScheduledHealth(SHIPPED, POLICY, Clock(), 1), AgedState(SHIPPED, 1), MissingPVPower,
                 Time(At(2), true));
    JudgedAtOnce(ScheduledHealth(SHIPPED, POLICY, Clock(), 2), AgedState(SHIPPED, 2), BadBatterySOC,
                 Time(At(3), true));
    HealthIsIf(1, Online, NoReason, At(1));
    HealthIsIf(2, Invalid, MissingPVPower, At(2));
    HealthIsIf(3, Invalid, BadBatterySOC, At(3));
  }

  lemma HealthInTheMorning()
    ensures HealthIs(4, Invalid, BadBatterySOC, At(3))
    ensures HealthIs(5, Offline, SourceUnavailable, At(3))
  {
    hide ScheduledHealth, JudgedHealth, AgedState, Refusal, HealthIs, At, Clock, ArrivalTime, EventTime, Age, KindAt,
      DeliversEvent, InstantOf;
    HealthAtNight();
    HealthIsMeans(3, Invalid, BadBatterySOC, At(3));
    HealthStep(4, Missing, false, At(4));
    TwoHoursApart(4);
    JudgedSilence(ScheduledHealth(SHIPPED, POLICY, Clock(), 3), AgedState(SHIPPED, 3), Refusal(SHIPPED, 4),
                  Time(At(4), true));
    HealthStep(5, Unavailable, false, At(5));
    JudgedAtOnce(ScheduledHealth(SHIPPED, POLICY, Clock(), 4), AgedState(SHIPPED, 4), Refusal(SHIPPED, 5),
                 Time(At(5), true));
    HealthIsIf(4, Invalid, BadBatterySOC, At(3));
    HealthIsIf(5, Offline, SourceUnavailable, At(3));
  }

  lemma TwoHoursApart(step: nat)
    ensures At(step) == At(step - 1) + 2 * HOUR
    ensures At(8) == At(6) + 4 * HOUR && At(6) > 0
  {
  }

  lemma HealthAtNoon()
    ensures HealthIs(6, Stale, ArrivedLate, At(6) + 3 * HOUR)
    ensures HealthIs(7, Stale, ArrivedLate, At(6) + 3 * HOUR)
    ensures HealthIs(8, Stale, LatestEventTooOld, At(8))
  {
    hide ScheduledHealth, JudgedHealth, AgedState, Refusal, HealthIs, At, Clock, ArrivalTime, EventTime, Age, KindAt,
      DeliversEvent, InstantOf;
    HealthStep(6, Accepted, true, At(6) + 3 * HOUR);
    JudgedAtOnce(ScheduledHealth(SHIPPED, POLICY, Clock(), 5), AgedState(SHIPPED, 5), Refusal(SHIPPED, 6),
                 Time(At(6) + 3 * HOUR, true));
    HealthStep(7, Duplicate, false, At(7));
    JudgedAtOnce(ScheduledHealth(SHIPPED, POLICY, Clock(), 6), AgedState(SHIPPED, 6), Refusal(SHIPPED, 7),
                 Time(At(7), true));
    HealthStep(8, HistoryOnly, true, At(8));
    AgeOfState(7);
    TwoHoursApart(8);
    JudgedOld(ScheduledHealth(SHIPPED, POLICY, Clock(), 7), AgedState(SHIPPED, 7), Refusal(SHIPPED, 8),
              Time(At(8), true));
    HealthIsIf(6, Stale, ArrivedLate, At(6) + 3 * HOUR);
    HealthIsIf(7, Stale, ArrivedLate, At(6) + 3 * HOUR);
    HealthIsIf(8, Stale, LatestEventTooOld, At(8));
  }

  lemma HealthLater(step: nat)
    requires 9 <= step <= 12
    ensures HealthIs(step, Online, NoReason, At(step))
  {
    hide ScheduledHealth, JudgedHealth, AgedState, Refusal, HealthIs, At, Clock, ArrivalTime, EventTime, Age, KindAt,
      DeliversEvent, InstantOf;
    HealthStep(step, Accepted, false, At(step));
    JudgedAtOnce(ScheduledHealth(SHIPPED, POLICY, Clock(), step - 1), AgedState(SHIPPED, step - 1),
                 Refusal(SHIPPED, step), Time(At(step), true));
    HealthIsIf(step, Online, NoReason, At(step));
  }

  lemma HealthAt(step: nat)
    requires 1 <= step <= 12
    ensures ScheduledHealth(SHIPPED, POLICY, Clock(), step).status == STATUSES[step - 1]
  {
    hide ScheduledHealth, JudgedHealth, AgedState, Refusal, HealthIs, At, Clock, ArrivalTime, EventTime, Age, KindAt,
      DeliversEvent, InstantOf;
    HealthAtNight();
    HealthInTheMorning();
    HealthAtNoon();
    if step >= 9 {
      HealthLater(step);
      HealthIsMeans(step, Online, NoReason, At(step));
    } else if step <= 3 {
      HealthIsMeans(1, Online, NoReason, At(1));
      HealthIsMeans(2, Invalid, MissingPVPower, At(2));
      HealthIsMeans(3, Invalid, BadBatterySOC, At(3));
    } else if step <= 5 {
      HealthIsMeans(4, Invalid, BadBatterySOC, At(3));
      HealthIsMeans(5, Offline, SourceUnavailable, At(3));
    } else {
      HealthIsMeans(6, Stale, ArrivedLate, At(6) + 3 * HOUR);
      HealthIsMeans(7, Stale, ArrivedLate, At(6) + 3 * HOUR);
      HealthIsMeans(8, Stale, LatestEventTooOld, At(8));
    }
  }

  // ---------------------------------------------------------------------------------------------
  // The whole day

  /** A record of the shipped day at the given step. */
  predicate Expected(step: nat, r: Record)
    requires 1 <= step <= 12
  {
    && r.disposition == DISPOSITIONS[step - 1]
    && r.healthStatus == STATUSES[step - 1]
    && (r.command.Some? <==> step == 1 || step >= 9)
    && (step == 2 ==> r.dispositionReason == MissingPVPower)
    && (step == 3 ==> r.dispositionReason == BadBatterySOC)
  }

  lemma ExpectedAt(step: nat, r: Record)
    requires 1 <= step <= 12 && AsScheduled(SHIPPED, POLICY, Clock(), step, r)
    ensures Expected(step, r)
  {
    VerdictAt(step);
    HealthAt(step);
    Arrivals(step);
    hide Verdict, ScheduledHealth, Refusal, Age, ArrivalTime, EventTime, KindAt, DeliversEvent, InstantOf, RecordedAt,
      Clock;
  }

  lemma TicksAreClock(fates: seq<Fate>)
    requires |fates| == 12 && forall i :: 0 <= i < 12 ==> fates[i].Completes?
    ensures var ticks := InstantTicks(Time(START, true), 2 * HOUR, fates);
            |ticks| == 12 && Readings(ticks) == Clock() && AllCalm(ticks)
  {
    var ticks := InstantTicks(Time(START, true), 2 * HOUR, fates);
    InstantTickAt(Time(START, true), 2 * HOUR, fates, 0);
    forall i | 0 <= i < 12
      ensures ticks[i].now == Clock()[i] && Calm(ticks[i])
    {
      InstantTickAt(Time(START, true), 2 * HOUR, fates, i);
    }
    assert Readings(ticks) == Clock();
    hide InstantTicks;
  }

  lemma ShippedTimes()
    ensures SHIPPED.start == Time(START, true) && SHIPPED.interval == 2 * HOUR
  {
  }

  lemma DefaultPolicy()
    ensures NewHealthPolicy(2 * HOUR, 0, 0) == Ok(POLICY)
  {
    DefaultHealthPolicy(2 * HOUR);
    hide NewHealthPolicy;
  }

  /** In every weather that names its samples apart and none as the file does, the shipped day runs to its end, and
      every step is disposed of, commanded and judged as the file expects. Whether a command charges or
      discharges is the weather's to say. */
  lemma ShippedDay(agent: Agent, nature: Nature, fates: seq<Fate>)
    requires nature.Lawful() && nature.NamesApart() && Avoids(nature, SHIPPED) && Wired(agent, SHIPPED)
    requires |fates| == 12 && forall i :: 0 <= i < 12 ==> fates[i].Completes?
    ensures SHIPPED.Valid() && agent.policy.Valid() && NewHealthPolicy(SHIPPED.interval, 0, 0).Ok?
    ensures var hp := NewHealthPolicy(SHIPPED.interval, 0, 0).value;
            var e := PlantLoop(agent, hp, SHIPPED, nature, StartedPlant(SHIPPED, nature, EMPTY_DATABASE),
                               InstantTicks(SHIPPED.start, SHIPPED.interval, fates));
            && e.ending.Running?
            && |e.records| == 12
            && (forall i :: 0 <= i < 12 ==> Expected(i + 1, e.records[i]))
  {
    hide *;
    var ticks := InstantTicks(Time(START, true), 2 * HOUR, fates);
    var plant := StartedPlant(SHIPPED, nature, EMPTY_DATABASE);
    ShippedIsValid();
    ShippedTimes();
    DefaultPolicy();
    TicksAreClock(fates);
    PolicyIsValid(agent, SHIPPED);
    StartsAccountable(agent, SHIPPED, nature);
    AccountableParts(agent, SHIPPED, nature, plant);
    OwnMeans(agent, SHIPPED, nature, plant);
    CalmRunGoesOn(agent, POLICY, SHIPPED, nature, plant, ticks);
    ScheduleIsRecorded(agent, POLICY, SHIPPED, nature, ticks);
    var records := PlantLoop(agent, POLICY, SHIPPED, nature, plant, ticks).records;
    forall i | 0 <= i < 12 ensures Expected(i + 1, records[i]) {
      assert AsScheduled(SHIPPED, POLICY, Readings(ticks), i + 1, records[i]);
      ExpectedAt(i + 1, records[i]);
    }
  }

  // ---------------------------------------------------------------------------------------------
  // The afternoon of the day

  /** The sample behind a step, in the ranges the seed can choose from. */
  ghost predicate Seasonable(nature: Nature, step: nat, sample: Sample) {
    exists sun, load :: 0.8 <= sun <= 1.0 && 0.85 <= load <= 1.15 && Sampled(nature, step, sample, sun, load)
  }

  predicate Sampled(nature: Nature, step: nat, sample: Sample, sun: real, load: real) {
    && sample.pvPowerKW == PVPowerKW(SHIPPED, nature, Time(At(step), true), sun)
    && sample.loadPowerKW == LoadPowerKW(SHIPPED, nature, Time(At(step), true), load)
  }

  lemma HandedSample(agent: Agent, nature: Nature, plant: Plant)
    requires SHIPPED.Valid() && nature.Lawful() && IntervalsPerDay(SHIPPED) > 0
    requires Timeline.OnTime(agent, SHIPPED, nature, plant) && plant.sim.step < 12
    ensures var next := Advanced(SHIPPED, nature, plant.sim);
            && Seasonable(nature, plant.sim.step + 1, next.pending)
            && next.pending.batterySOCPercent == plant.sim.batterySOCPercent
  {
    var s := plant.sim;
    var next := Advanced(SHIPPED, nature, s);
    hide *;
    PositiveInterval(SHIPPED);
    OnTimeParts(agent, SHIPPED, nature, plant);
    PoisedTime(SHIPPED, nature, s);
    AdvancedDay(SHIPPED, nature, s);
    OnScheduleIsDrawn(SHIPPED, nature, s);
    AdvancedSample(SHIPPED, nature, s);
    Arrivals(s.step + 1);
    DrawnRange(nature, next);
    SampledIf(nature, s.step + 1, next);
  }

  lemma OnScheduleIsDrawn(cfg: Config, nature: Nature, s: SimState)
    requires cfg.interval > 0 && IntervalsPerDay(cfg) > 0 && OnSchedule(cfg, nature, s)
    ensures Drawn(nature, s)
  {
    hide Drawn, IntervalsPerDay;
  }

  lemma DrawnRange(nature: Nature, s: SimState)
    requires nature.Lawful() && Drawn(nature, s)
    ensures 0.8 <= s.dailyPVFactor <= 1.0 && 0.85 <= s.dailyLoadFactor <= 1.15
  {
    assert 0.0 <= nature.random(s.drawn - 3) < 1.0;
    assert 0.0 <= nature.random(s.drawn - 2) < 1.0;
  }

  lemma SampledIf(nature: Nature, step: nat, next: SimState)
    requires 0.8 <= next.dailyPVFactor <= 1.0 && 0.85 <= next.dailyLoadFactor <= 1.15
    requires next.currentTime == Time(At(step), true)
    requires next.pending.pvPowerKW == PVPowerKW(SHIPPED, nature, next.currentTime, next.dailyPVFactor)
    requires next.pending.loadPowerKW == LoadPowerKW(SHIPPED, nature, next.currentTime, next.dailyLoadFactor)
    ensures Seasonable(nature, step, next.pending)
  {
    assert Sampled(nature, step, next.pending, next.dailyPVFactor, next.dailyLoadFactor);
    hide PVPowerKW, LoadPowerKW, At;
  }

  lemma HoursOfTheDay()
    ensures HourOfDay(Time(At(1), true)) == 0.0
    ensures HourOfDay(Time(At(9), true)) == 16.0
  {
    ClockHour(739_616, 0, 0, 0, 0);
    ClockHour(739_616, 16, 0, 0, 0);
    hide HourOfDay;
  }

  /** At midnight there is no sun; at four in the afternoon more than the house can use. */
  lemma Surplus(nature: Nature, step: nat, sample: Sample)
    requires Shaped(nature) && nature.Lawful() && Seasonable(nature, step, sample)
    ensures step == 1 ==> sample.pvPowerKW < sample.loadPowerKW
    ensures step == 9 ==> sample.pvPowerKW > sample.loadPowerKW
  {
    var sun, load :|
      0.8 <= sun <= 1.0 && 0.85 <= load <= 1.15 && Sampled(nature, step, sample, sun, load);
    var at := Time(At(step), true);
    HoursOfTheDay();
    if step == 1 {
      LoadIsAboveBase(SHIPPED, nature, at, load);
      NoSunAtMidnight(SHIPPED, nature, at, sun);
    } else if step == 9 {
      SunAtFour(SHIPPED, nature, at, sun);
      LoadAtFour(SHIPPED, nature, at, load);
    }
    hide HourOfDay, PVPowerKW, LoadPowerKW, Shaped, Nature.Lawful, At;
  }

  lemma NoSunAtMidnight(cfg: Config, nature: Nature, at: Time, factor: real)
    requires HourOfDay(at) == 0.0
    ensures PVPowerKW(cfg, nature, at, factor) == 0.0
  {
    hide HourOfDay;
  }

  /** The run so far has followed the schedule, and has not charged the battery. */
  predicate Uncharged(agent: Agent, nature: Nature, plant: Plant)
    requires SHIPPED.interval > 0 && IntervalsPerDay(SHIPPED) > 0
  {
    && Tracked(agent, POLICY, SHIPPED, nature, Clock(), plant)
    && Timeline.OnTime(agent, SHIPPED, nature, plant)
    && plant.sim.batterySOCPercent <= 50.0
  }

  lemma UnchargedMeans(agent: Agent, nature: Nature, plant: Plant)
    requires SHIPPED.interval > 0 && IntervalsPerDay(SHIPPED) > 0 && Uncharged(agent, nature, plant)
    ensures Tracked(agent, POLICY, SHIPPED, nature, Clock(), plant)
    ensures Timeline.OnTime(agent, SHIPPED, nature, plant)
    ensures plant.sim.batterySOCPercent <= 50.0 && plant.sim.step <= 12
  {
    hide Own, ScheduledHealth, Timeline.OnTime, IntervalsPerDay;
  }

  lemma UnchargedIf(agent: Agent, nature: Nature, plant: Plant)
    requires SHIPPED.interval > 0 && IntervalsPerDay(SHIPPED) > 0
    requires Tracked(agent, POLICY, SHIPPED, nature, Clock(), plant)
    requires Timeline.OnTime(agent, SHIPPED, nature, plant)
    requires plant.sim.batterySOCPercent <= 50.0
    ensures Uncharged(agent, nature, plant)
  {
    hide Tracked, Timeline.OnTime, IntervalsPerDay;
  }

  /** A step without a fault hands over its own sample. */
  lemma OwnSample(nature: Nature, s: SimState)
    requires SHIPPED.Valid() && nature.Lawful() && Poised(SHIPPED, nature, s)
    requires s.step == 0 || 8 <= s.step < 12
    ensures EventOf(HandedEnvelope(SHIPPED, nature, s))
            == Some(TelemetryOf(SHIPPED.deviceID, Advanced(SHIPPED, nature, s).pending))
  {
    ShippedFaults(s.step + 1);
    Arrivals(s.step + 1);
    HandedEvent(SHIPPED, nature, s);
    hide EventOf, HandedEnvelope, Advanced, FaultAt, Config.Valid, Nature.Lawful, Poised, Refusal, KindAt, EventTime,
      Age, DeliversEvent, ArrivalTime, InstantOf;
  }

  /** A command that does not charge never raises the charge. */
  lemma NoChargeNoRise(soc: real, command: Command, interval: int, capacity: real)
    requires command.Valid() && !command.decision.Charge? && capacity > 0.0 && interval > 0 && OnScale(soc)
    ensures NextBatterySOCPercent(soc, CommandBatteryPowerKW(command), interval, capacity) <= soc
  {
    var next := NextBatterySOCPercent(soc, CommandBatteryPowerKW(command), interval, capacity);
    CommandMovesEnergy(soc, command, interval, capacity);
    SignedEnergy(command, interval);
    EnergyOrder(next, soc, capacity);
    EnergyOrder(0.0, soc, capacity);
    EnergyOrder(0.0, 0.0, capacity);
    hide EnergyKWh, NextBatterySOCPercent, CommandBatteryPowerKW, CommandError;
  }

  /** What is recorded at a step without a fault. */
  lemma OwnRecord(agent: Agent, nature: Nature, plant: Plant, tick: Tick)
    requires SHIPPED.Valid() && nature.Lawful() && Wired(agent, SHIPPED) && IntervalsPerDay(SHIPPED) > 0
    requires Shaped(nature) && Timeline.OnTime(agent, SHIPPED, nature, plant)
    requires plant.sim.step == 0 || 8 <= plant.sim.step < 12
    ensures agent.policy.Valid()
    ensures var e := PlantInterval(agent, POLICY, SHIPPED, nature, plant, tick);
            e.ending.Running? ==>
              && |e.records| == 1
              && var r := e.records[0];
                 && r.telemetry.Some?
                 && r.telemetry.value.batterySOCPercent == plant.sim.batterySOCPercent
                 && CommandFits(r)
                 && (plant.sim.step == 0 ==> r.telemetry.value.pvPowerKW < r.telemetry.value.loadPowerKW)
                 && (plant.sim.step == 8 ==> r.telemetry.value.pvPowerKW > r.telemetry.value.loadPowerKW)
  {
    hide *;
    PositiveInterval(SHIPPED);
    PolicyIsValid(agent, SHIPPED);
    OnTimeParts(agent, SHIPPED, nature, plant);
    var envelope := HandedEnvelope(SHIPPED, nature, plant.sim);
    var step := Step(envelope, tick.now, tick.fate);
    var next := Advanced(SHIPPED, nature, plant.sim);
    PlantAdvances(agent, POLICY, SHIPPED, nature, plant, tick);
    AdvancesMeans(agent, POLICY, SHIPPED, nature, plant, tick, envelope);
    IntervalExplains(agent, POLICY, plant.memory, plant.db, step);
    OwnSample(nature, plant.sim);
    HandedSample(agent, nature, plant);
    Surplus(nature, plant.sim.step + 1, next.pending);
    TelemetryParts(SHIPPED.deviceID, next.pending);
    var e := PlantInterval(agent, POLICY, SHIPPED, nature, plant, tick);
    if e.ending.Running? {
      ExplainedFits(agent, e.records[0]);
      DescribedEvent(agent, step, e.records[0]);
    }
  }

  lemma TelemetryParts(deviceID: string, sample: Sample)
    ensures var event := TelemetryOf(deviceID, sample);
            && event.pvPowerKW == sample.pvPowerKW
            && event.loadPowerKW == sample.loadPowerKW
            && event.batterySOCPercent == sample.batterySOCPercent
  {
  }

  /** A calm interval records what the schedule calls for and goes on. */
  lemma CalmAsScheduled(agent: Agent, nature: Nature, plant: Plant, tick: Tick)
    requires SHIPPED.Valid() && nature.Lawful() && nature.NamesApart() && Avoids(nature, SHIPPED)
    requires Wired(agent, SHIPPED) && IntervalsPerDay(SHIPPED) > 0
    requires Uncharged(agent, nature, plant) && plant.sim.step < 12
    requires Calm(tick) && tick.now == Clock()[plant.sim.step]
    ensures agent.policy.Valid()
    ensures var e := PlantInterval(agent, POLICY, SHIPPED, nature, plant, tick);
            && e.ending.Running?
            && |e.records| == 1
            && (e.records[0].command.Some? <==> plant.sim.step == 0 || plant.sim.step >= 8)
            && Tracked(agent, POLICY, SHIPPED, nature, Clock(), e.plant)
            && Timeline.OnTime(agent, SHIPPED, nature, e.plant)
            && e.plant.sim.step == plant.sim.step + 1
  {
    hide *;
    PositiveInterval(SHIPPED);
    PolicyIsValid(agent, SHIPPED);
    UnchargedMeans(agent, nature, plant);
    OnTimeParts(agent, SHIPPED, nature, plant);
    CalmGoesOn(agent, POLICY, SHIPPED, nature, plant, tick);
    IntervalAsScheduled(agent, POLICY, SHIPPED, nature, Clock(), plant, tick);
    PlantIntervalOnTime(agent, POLICY, SHIPPED, nature, plant, tick);
    CommandAt(plant.sim.step + 1, PlantInterval(agent, POLICY, SHIPPED, nature, plant, tick).records[0]);
  }

  lemma CommandAt(step: nat, r: Record)
    requires 1 <= step <= 12 && AsScheduled(SHIPPED, POLICY, Clock(), step, r)
    ensures r.command.Some? <==> step == 1 || step >= 9
  {
    VerdictAt(step);
    hide Verdict, ScheduledHealth, Refusal, Age, RecordedAt, Clock;
  }

  /** Before the ninth step nothing charges the battery. */
  lemma StaysUncharged(agent: Agent, nature: Nature, plant: Plant, tick: Tick)
    requires SHIPPED.Valid() && nature.Lawful() && nature.NamesApart() && Avoids(nature, SHIPPED)
    requires Wired(agent, SHIPPED) && IntervalsPerDay(SHIPPED) > 0 && Shaped(nature)
    requires Uncharged(agent, nature, plant) && plant.sim.step < 8
    requires Calm(tick) && tick.now == Clock()[plant.sim.step]
    ensures agent.policy.Valid()
    ensures var e := PlantInterval(agent, POLICY, SHIPPED, nature, plant, tick);
            && e.ending.Running?
            && |e.records| == 1
            && Uncharged(agent, nature, e.plant)
            && e.plant.sim.step == plant.sim.step + 1
  {
    hide *;
    PositiveInterval(SHIPPED);
    PolicyIsValid(agent, SHIPPED);
    UnchargedMeans(agent, nature, plant);
    OnTimeParts(agent, SHIPPED, nature, plant);
    SoundParts(agent, SHIPPED, nature, plant);
    var step := Step(HandedEnvelope(SHIPPED, nature, plant.sim), tick.now, tick.fate);
    var sent := Interval(agent, POLICY, plant.memory, plant.db, step).sent;
    CalmMeans(tick);
    CalmAsScheduled(agent, nature, plant, tick);
    PlantAdvances(agent, POLICY, SHIPPED, nature, plant, tick);
    AdvancesMeans(agent, POLICY, SHIPPED, nature, plant, tick, step.envelope);
    ReachesMeans(agent, POLICY, plant.memory, plant.db, step);
    SentAsRecorded(agent, POLICY, plant.memory, plant.db, step);
    var e := PlantInterval(agent, POLICY, SHIPPED, nature, plant, tick);
    if sent != [] {
      OwnRecord(agent, nature, plant, tick);
      NoChargeAtNight(e.records[0]);
      NoChargeNoRise(plant.sim.batterySOCPercent, sent[0].command, SHIPPED.interval, SHIPPED.batteryCapacityKWh);
    }
    UnchargedIf(agent, nature, e.plant);
  }

  lemma NoChargeAtNight(r: Record)
    requires CommandFits(r) && r.command.Some? && r.telemetry.Some?
    requires r.telemetry.value.pvPowerKW < r.telemetry.value.loadPowerKW
    ensures r.command.value.Valid() && !r.command.value.decision.Charge?
  {
    hide CommandError;
  }

  lemma ReachesMeans(agent: Agent, hp: HealthPolicy, memory: Memory, db: Database, step: Step)
    requires agent.policy.Valid() && step.fate.Completes?
    ensures var e := Interval(agent, hp, memory, db, step);
            !step.fate.SinkFails? && (e.ending.Running? ==> e.applies == 1)
  {
    Safety.IntervalCases(agent, hp, memory, db, step);
    hide Process, Interval, BuildRecord, RecordedBy, ReceivedAtOrNow;
  }

  lemma {:induction false} ChargesAtNine(agent: Agent, nature: Nature, plant: Plant, ticks: seq<Tick>)
    requires SHIPPED.Valid() && nature.Lawful() && nature.NamesApart() && Avoids(nature, SHIPPED)
    requires Wired(agent, SHIPPED) && IntervalsPerDay(SHIPPED) > 0 && Shaped(nature)
    requires Uncharged(agent, nature, plant) && plant.sim.step <= 8
    requires AllCalm(ticks) && plant.sim.step + |ticks| == 12
    requires forall i :: 0 <= i < |ticks| ==> ticks[i].now == Clock()[plant.sim.step + i]
    ensures agent.policy.Valid()
    ensures var records := PlantLoop(agent, POLICY, SHIPPED, nature, plant, ticks).records;
            var i := 8 - plant.sim.step;
            i < |records| && records[i].command.Some? && records[i].command.value.decision == Charge
    decreases |ticks|
  {
    hide *;
    PolicyIsValid(agent, SHIPPED);
    PlantLoopUnfolds(agent, POLICY, SHIPPED, nature, plant, ticks);
    CalmParts(ticks);
    assert ticks[0].now == Clock()[plant.sim.step + 0];
    var first := PlantInterval(agent, POLICY, SHIPPED, nature, plant, ticks[0]);
    CalmAsScheduled(agent, nature, plant, ticks[0]);
    if plant.sim.step == 8 {
      UnchargedMeans(agent, nature, plant);
      OwnRecord(agent, nature, plant, ticks[0]);
      ChargesSurplus(first.records[0]);
    } else {
      StaysUncharged(agent, nature, plant, ticks[0]);
      var rest := ticks[1..];
      forall i | 0 <= i < |rest| ensures rest[i].now == Clock()[first.plant.sim.step + i] {
        assert rest[i] == ticks[i + 1];
        assert ticks[i + 1].now == Clock()[plant.sim.step + (i + 1)];
      }
      ChargesAtNine(agent, nature, first.plant, rest);
    }
  }

  lemma ChargesSurplus(r: Record)
    requires CommandFits(r) && r.command.Some? && r.telemetry.Some?
    requires r.telemetry.value.pvPowerKW > r.telemetry.value.loadPowerKW
    requires r.telemetry.value.batterySOCPercent <= 50.0
    ensures r.command.value.decision == Charge
  {
    hide CommandError;
  }

  /** What the file expects of the ninth step holds for every seed: in every weather with the shape of the day's
      curves, whatever the day's factors, the battery has not been charged by four in the afternoon and is
      charged then. */
  lemma ShippedAfternoon(agent: Agent, nature: Nature, fates: seq<Fate>)
    requires nature.Lawful() && nature.NamesApart() && Avoids(nature, SHIPPED) && Wired(agent, SHIPPED)
    requires Shaped(nature)
    requires |fates| == 12 && forall i :: 0 <= i < 12 ==> fates[i].Completes?
    ensures SHIPPED.Valid() && agent.policy.Valid() && NewHealthPolicy(SHIPPED.interval, 0, 0).Ok?
    ensures var hp := NewHealthPolicy(SHIPPED.interval, 0, 0).value;
            var records := PlantLoop(agent, hp, SHIPPED, nature, StartedPlant(SHIPPED, nature, EMPTY_DATABASE),
                                     InstantTicks(SHIPPED.start, SHIPPED.interval, fates)).records;
            |records| == 12 && records[8].command.Some? && records[8].command.value.decision == Charge
  {
    hide *;
    var ticks := InstantTicks(Time(START, true), 2 * HOUR, fates);
    var plant := StartedPlant(SHIPPED, nature, EMPTY_DATABASE);
    ShippedDay(agent, nature, fates);
    ShippedTimes();
    DefaultPolicy();
    TicksAreClock(fates);
    PolicyIsValid(agent, SHIPPED);
    PositiveInterval(SHIPPED);
    WholeDays(SHIPPED);
    StartsUncharged(agent, nature);
    forall i | 0 <= i < 12 ensures ticks[i].now == Clock()[plant.sim.step + i] {
      ReadingsMean(ticks);
    }
    ChargesAtNine(agent, nature, plant, ticks);
  }

  lemma StartsUncharged(agent: Agent, nature: Nature)
    requires SHIPPED.Valid() && nature.Lawful() && Wired(agent, SHIPPED)
    requires SHIPPED.interval > 0 && IntervalsPerDay(SHIPPED) > 0
    ensures var plant := StartedPlant(SHIPPED, nature, EMPTY_DATABASE);
            plant.sim.step == 0 && Uncharged(agent, nature, plant)
  {
    hide *;
    var plant := StartedPlant(SHIPPED, nature, EMPTY_DATABASE);
    StartsAccountable(agent, SHIPPED, nature);
    AccountableParts(agent, SHIPPED, nature, plant);
    OwnMeans(agent, SHIPPED, nature, plant);
    StartsUnheard(SHIPPED, POLICY, nature, Clock());
    TrackedIf(agent, POLICY, SHIPPED, nature, Clock(), plant);
    StartsOnSchedule(agent, SHIPPED, nature, EMPTY_DATABASE);
    ShippedCharge();
    UnchargedIf(agent, nature, plant);
  }

  lemma ShippedCharge()
    ensures SHIPPED.startingBatterySOCPercent == 50.0
  {
  }

  /** There is such weather, with a parabola for the sun and a rational curve for the bell. */
  function Parabolic(cfg: Config): Nature {
    EvenNature(cfg).(sine := x => Parabola(x), bell := x => Bell(x))
  }

  function Parabola(x: real): real {
    if 0.0 <= x <= 1.0 then 4.0 * x * (1.0 - x) else 0.0
  }

  function Bell(x: real): (y: real)
    ensures 0.0 < y <= 1.0 && y * (1.0 + x * x / 2.0) <= 1.0
    ensures x == 0.0 ==> y == 1.0
  {
    assert x * x >= 0.0;
    QuotientParts(1.0 + x * x / 2.0);
    1.0 / (1.0 + x * x / 2.0)
  }

  lemma QuotientParts(k: real)
    requires k >= 1.0
    ensures 0.0 < 1.0 / k <= 1.0 && 1.0 / k * k == 1.0
  {
  }

  lemma WaveFits(sine: real -> real)
    requires forall x :: sine(x) == Parabola(x)
    ensures HalfWave(sine)
    ensures forall x :: 0.0 <= sine(x) <= 1.0
  {
    forall x
      ensures 0.0 <= sine(x) <= 1.0
      ensures sine(1.0 - x) == sine(x)
      ensures 0.0 < x < 1.0 ==> 3.0 * x * (1.0 - x) <= sine(x)
    {
      UnderParabola(x);
    }
    UnderParabola(0.5);
    hide Parabola;
  }

  lemma BellFits(bell: real -> real)
    requires forall x :: bell(x) == Bell(x)
    ensures BellCurve(bell)
    ensures forall x :: 0.0 <= bell(x) <= 1.0
  {
    hide Bell;
  }

  lemma ParabolicFits(cfg: Config)
    ensures var nature := Parabolic(cfg);
            nature.Lawful() && nature.NamesApart() && Avoids(nature, cfg) && Shaped(nature)
  {
    EvenNatureAvoids(cfg);
    WaveFits(Parabolic(cfg).sine);
    BellFits(Parabolic(cfg).bell);
    hide LongName, Bell, Parabola, RedatedNames, ScheduledNames, Blank, Padded, HalfWave, BellCurve;
  }

  lemma UnderParabola(x: real)
    ensures 0.0 <= Parabola(x) <= 1.0
    ensures Parabola(1.0 - x) == Parabola(x)
    ensures 0.0 < x < 1.0 ==> 3.0 * x * (1.0 - x) <= Parabola(x)
    ensures x == 0.5 ==> Parabola(x) == 1.0
  {
    var d := x - 0.5;
    assert 4.0 * x * (1.0 - x) == 1.0 - 4.0 * d * d;
    assert d * d >= 0.0;
    if 0.0 <= x <= 1.0 {
      ProductOfParts(x, 1.0 - x);
    }
  }

  lemma ProductOfParts(a: real, b: real)
    requires a >= 0.0 && b >= 0.0
    ensures a * b >= 0.0
  {
  }
}
