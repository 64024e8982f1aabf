/** What a schedule of faults is recorded as: how each step is disposed of, and what becomes of the device
    health, decided by the schedule and the clock alone. */
module Outcomes {
  import opened Basics
  import opened Observations
  import opened LatestState
  import opened Health
  import opened ControlPolicy
  import opened Classifier
  import opened Contracts
  import opened Storage
  import opened Runtime
  import opened Safety
  import Progress
  import opened Records
  import opened Faults
  import opened Simulator
  import opened ClosedLoop
  import opened Openings
  import opened OpenLoop
  import opened FreshStart

  // ---------------------------------------------------------------------------------------------
  // What arrives at a step

  function KindAt(cfg: Config, step: int): Option<FaultKind> {
    KindOf(FaultAt(cfg.faults, step))
  }

  /** The instant a step's delivery arrives at. */
  function ArrivalTime(cfg: Config, step: int): int {
    var fault := FaultAt(cfg.faults, step);
    InstantOf(cfg, step) + if fault.Some? && fault.value.kind.DelayFault? then fault.value.delay else 0
  }

  /** The time an interval is recorded at: the arrival, or the clock if there is none that can be recorded. */
  function RecordedAt(cfg: Config, step: int, now: Time): Time {
    if KindAt(cfg, step) == Some(MissingHeartbeatFault) || ArrivalTime(cfg, step) == 0 then now
    else Time(ArrivalTime(cfg, step), true)
  }

  /** Why a delivery that carries no usable event is rejected: it has no usable receive time, the measurement
      that the fault names is missing or bad, a made-up name is padded, or the event has no usable time. */
  function Refusal(cfg: Config, step: int): Reason {
    var fault := FaultAt(cfg.faults, step);
    if ArrivalTime(cfg, step) == 0 then ZeroReceiveTime
    else if fault.None? then ZeroEventTime
    else
      match fault.value.kind
      case MissingValueFault =>
        if fault.value.measurement.NoMeasurement? then NoReason else MissingReason(fault.value.measurement)
      case InvalidMeasurementFault =>
        if fault.value.measurement.NoMeasurement? then NoReason else BadReason(fault.value.measurement)
      case OutOfOrderFault => if Padded(fault.value.eventID) then PaddedEventID else ZeroEventTime
      case _ => ZeroEventTime
  }

  /** A reading with sound measurements, but for one, under its own name and time. */
  lemma OneBadMeasurement(r: RawTelemetry, m: Measurement)
    requires !m.NoMeasurement?
    requires forall other: Measurement :: !other.NoMeasurement? && other != m ==>
               Reading(r, other).Some? && InRange(other, Reading(r, other).value)
    ensures Reading(r, m).None? ==> ValidateRaw(r) == Err(MissingReason(m))
    ensures && Reading(r, m).Some?
            && !InRange(m, Reading(r, m).value)
            && !Blank(r.eventID) && !Padded(r.eventID) && r.eventTime.ns != 0 && !Blank(r.deviceID)
            ==> ValidateRaw(r) == Err(BadReason(m))
  {
    assert forall other: Measurement :: !other.NoMeasurement? ==> other == m || Reading(r, other).Some?;
    assert PVPower == m || Reading(r, PVPower).Some?;
    assert LoadPower == m || Reading(r, LoadPower).Some?;
    assert BatterySOC == m || Reading(r, BatterySOC).Some?;
    assert Price == m || Reading(r, Price).Some?;
    hide Blank, Padded;
  }

  /** A reading with sound measurements fails for its name or its time. */
  lemma SoundMeasurements(r: RawTelemetry)
    requires forall m: Measurement :: !m.NoMeasurement? ==> Reading(r, m).Some? && InRange(m, Reading(r, m).value)
    requires !Blank(r.eventID) && !Blank(r.deviceID)
    ensures Padded(r.eventID) ==> ValidateRaw(r) == Err(PaddedEventID)
    ensures !Padded(r.eventID) && r.eventTime.ns == 0 ==> ValidateRaw(r) == Err(ZeroEventTime)
    ensures !Padded(r.eventID) && r.eventTime.ns != 0 ==> ValidateRaw(r).Ok?
  {
    assert Reading(r, PVPower).Some? && Reading(r, LoadPower).Some?;
    assert Reading(r, BatterySOC).Some? && Reading(r, Price).Some?;
    hide Blank, Padded;
  }

  lemma SoundReadings(sample: Sample)
    requires SoundSample(sample)
    ensures forall m: Measurement :: !m.NoMeasurement? ==> InRange(m, Finite(Measured(sample, m)))
  {
    hide Blank, Padded;
  }

  /** The delivery of a step, whatever the weather. */
  lemma HandedKind(cfg: Config, nature: Nature, s: SimState, now: Time)
    requires cfg.Valid() && nature.Lawful() && Poised(cfg, nature, s)
    ensures var k := s.step + 1;
            var e := HandedEnvelope(cfg, nature, s);
            && (e.None? <==> KindAt(cfg, k) == Some(MissingHeartbeatFault))
            && (e.Some? ==>
                  && e.value.sourceDeviceID == cfg.deviceID
                  && e.value.receivedAt == Time(ArrivalTime(cfg, k), true)
                  && (e.value.telemetry.Some? <==> e.value.available)
                  && (e.value.available <==> KindAt(cfg, k) != Some(UnavailableFault))
                  && EnvelopeError(e.value) == if ArrivalTime(cfg, k) == 0 then Some(ZeroReceiveTime) else None)
            && RecordedAt(cfg, k, now) ==
               if e.Some? && e.value.receivedAt.ns != 0 && e.value.receivedAt.utc then e.value.receivedAt else now
  {
    var k := s.step + 1;
    var next := Advanced(cfg, nature, s);
    HandsOut(cfg, nature, s);
    DeliveredByKind(cfg, next, FaultAt(cfg.faults, k));
    HandedMeans(cfg, nature, s);
    NamedDevice(cfg);
    hide DeliveredEnvelope, Advanced, Next, Nature.Lawful, Poised, FaultAt, Config.Valid, SoundSample, InstantOf,
      Fault.Valid, Blank, Reading, Measured, HandedEnvelope;
  }

  lemma NamedDevice(cfg: Config)
    requires cfg.Valid()
    ensures !Blank(cfg.deviceID)
  {
    hide ScheduleValid, Blank;
  }

  /** The measurement that the step's fault leaves out or spoils, if any. */
  function Spoilt(cfg: Config, step: int): Option<Measurement> {
    var kind := KindAt(cfg, step);
    if kind == Some(MissingValueFault) || kind == Some(InvalidMeasurementFault) then
      Some(FaultAt(cfg.faults, step).value.measurement)
    else None
  }

  /** The step's reading: its name, its time and its measurements. */
  predicate ReadingAt(cfg: Config, step: int, raw: RawTelemetry) {
    var fault := FaultAt(cfg.faults, step);
    var kind := KindAt(cfg, step);
    && raw.deviceID == cfg.deviceID
    && (forall m: Measurement :: !m.NoMeasurement? && Spoilt(cfg, step) != Some(m) ==>
          Reading(raw, m).Some? && InRange(m, Reading(raw, m).value))
    && (kind == Some(MissingValueFault) ==>
          !fault.value.measurement.NoMeasurement? && Reading(raw, fault.value.measurement).None?)
    && (kind == Some(InvalidMeasurementFault) ==>
          && !fault.value.measurement.NoMeasurement?
          && Reading(raw, fault.value.measurement) == Some(fault.value.value)
          && !InRange(fault.value.measurement, fault.value.value))
    && !Blank(raw.eventID)
    && if kind == Some(OutOfOrderFault) then
         raw.eventID == fault.value.eventID && raw.eventTime.ns == InstantOf(cfg, step) + fault.value.eventTimeOffset
       else
         && !Padded(raw.eventID)
         && raw.eventTime.ns == InstantOf(cfg, if kind == Some(DuplicateFault) then step - 1 else step)
  }

  lemma HandedReading(cfg: Config, nature: Nature, s: SimState)
    requires cfg.Valid() && nature.Lawful() && Poised(cfg, nature, s)
    ensures var e := HandedEnvelope(cfg, nature, s);
            e.Some? && e.value.telemetry.Some? ==> ReadingAt(cfg, s.step + 1, e.value.telemetry.value)
  {
    var k := s.step + 1;
    var next := Advanced(cfg, nature, s);
    var fault := FaultAt(cfg.faults, k);
    HandsOut(cfg, nature, s);
    DeliveredByKind(cfg, next, fault);
    HandedMeans(cfg, nature, s);
    if fault.Some? {
      AcceptedFault(fault.value);
    }
    if s.step > 0 {
      PoisedPrior(cfg, nature, s);
      SoundReadings(s.prior);
    }
    SoundReadings(next.pending);
    SoundName(s.prior);
    SoundName(next.pending);
    hide DeliveredEnvelope, Advanced, Next, Nature.Lawful, Poised, FaultAt, Config.Valid, InstantOf, Blank, Padded,
      Measured, Reading, HandedEnvelope, InRange, SoundSample, Fault.Valid;
  }

  lemma SoundName(sample: Sample)
    ensures SoundSample(sample) ==> !Blank(sample.eventID) && !Padded(sample.eventID)
  {
  }

  /** A reading that arrives at a time that can be recorded and makes no event is refused for the stated reason. */
  lemma RefusedFor(cfg: Config, step: int, raw: RawTelemetry)
    requires ReadingAt(cfg, step, raw) && !Blank(cfg.deviceID)
    requires step >= 2 || KindAt(cfg, step) != Some(DuplicateFault)
    requires KindAt(cfg, step) != Some(MissingHeartbeatFault) && KindAt(cfg, step) != Some(UnavailableFault)
             && KindAt(cfg, step) != Some(UnknownFault)
    requires !DeliversEvent(cfg, step) && ArrivalTime(cfg, step) != 0
    ensures ValidateRaw(raw) == Err(Refusal(cfg, step))
  {
    if Spoilt(cfg, step).Some? {
      OneBadMeasurement(raw, Spoilt(cfg, step).value);
    } else {
      SoundMeasurements(raw);
    }
    hide FaultAt, InstantOf, Blank, Padded, Reading, InRange, ValidateRaw;
  }

  lemma PoisedPrior(cfg: Config, nature: Nature, s: SimState)
    requires Poised(cfg, nature, s) && s.step > 0
    ensures SoundSample(s.prior) && s.prior.eventTime == Time(InstantOf(cfg, s.step), true)
  {
    hide SoundSample;
  }

  // ---------------------------------------------------------------------------------------------
  // How a step is recorded, on any database

  /** What the kind of fault alone settles about a step's record: when, whether it is of an event, and how a
      step without one is disposed of. */
  predicate RecordedByKind(cfg: Config, step: int, now: Time, r: Record) {
    var kind := KindAt(cfg, step);
    && r.receivedAt == RecordedAt(cfg, step, now)
    && (r.telemetry.Some? <==> DeliversEvent(cfg, step))
    && (r.disposition.Missing? <==> kind == Some(MissingHeartbeatFault))
    && (r.disposition.Unavailable? <==> kind == Some(UnavailableFault) && ArrivalTime(cfg, step) != 0)
    && (r.disposition.Unavailable? ==> r.healthStatus == Offline && r.healthReason == SourceUnavailable)
    && (r.disposition.Rejected? <==>
          && !DeliversEvent(cfg, step)
          && kind != Some(MissingHeartbeatFault)
          && (kind == Some(UnavailableFault) ==> ArrivalTime(cfg, step) == 0))
    && (r.disposition.Rejected? ==>
          && r.dispositionReason == Refusal(cfg, step)
          && r.healthStatus == Invalid
          && r.healthReason == Refusal(cfg, step))
  }

  lemma DescribedByKind(agent: Agent, cfg: Config, nature: Nature, s: SimState, now: Time, fate: Fate, r: Record)
    requires cfg.Valid() && nature.Lawful() && Poised(cfg, nature, s) && agent.policy.Valid()
    requires Explained(agent, r) && Describes(Step(HandedEnvelope(cfg, nature, s), now, fate), r)
    ensures RecordedByKind(cfg, s.step + 1, now, r)
  {
    var k := s.step + 1;
    var e := HandedEnvelope(cfg, nature, s);
    hide *;
    DescribedMeans(agent, Step(e, now, fate), r);
    HandedKind(cfg, nature, s, now);
    HandedReading(cfg, nature, s);
    HandedOwn(cfg, nature, s);
    KnownKind(cfg, nature, s);
    NamedDevice(cfg);
    if r.disposition.Rejected? && ArrivalTime(cfg, k) != 0 {
      RefusedFor(cfg, k, e.value.telemetry.value);
    }
    NoArrival(cfg, k);
    ByKindIf(cfg, k, now, r);
  }

  /** The parts of a description that matter here. */
  lemma DescribedMeans(agent: Agent, step: Step, r: Record)
    requires agent.policy.Valid() && Explained(agent, r) && Describes(step, r)
    ensures var e := step.envelope;
            && (e.Some? && e.value.receivedAt.ns != 0 && e.value.receivedAt.utc ==> r.receivedAt == e.value.receivedAt)
            && (e.None? || e.value.receivedAt.ns == 0 || !e.value.receivedAt.utc ==> r.receivedAt == step.now)
            && r.telemetry == EventOf(e)
            && (r.disposition.Missing? <==> e.None?)
            && (r.disposition.Unavailable? <==> e.Some? && EnvelopeError(e.value).None? && !e.value.available)
            && (r.disposition.Rejected? <==> EventOf(e).None? && !r.disposition.Missing? && !r.disposition.Unavailable?)
            && (r.disposition.Unavailable? ==> r.healthStatus == Offline && r.healthReason == SourceUnavailable)
            && (r.disposition.Rejected? ==>
                  && r.healthStatus == Invalid
                  && r.healthReason == r.dispositionReason
                  && (EnvelopeError(e.value).Some? ==> Some(r.dispositionReason) == EnvelopeError(e.value))
                  && (EnvelopeError(e.value).None? ==> e.value.available && e.value.telemetry.Some?)
                  && (EnvelopeError(e.value).None? && ValidateRaw(e.value.telemetry.value).Err? ==>
                        Err(r.dispositionReason) == ValidateRaw(e.value.telemetry.value)))
  {
    if step.envelope.Some? {
      EnvelopeLaw(step.envelope.value);
    }
    hide EventOf, EnvelopeError, ValidateRaw, Policy.Decide;
  }

  lemma KnownKind(cfg: Config, nature: Nature, s: SimState)
    requires cfg.Valid() && nature.Lawful() && Poised(cfg, nature, s)
    ensures KindAt(cfg, s.step + 1) != Some(UnknownFault)
    ensures KindAt(cfg, s.step + 1) == Some(DuplicateFault) ==> s.step > 0
  {
    HandsOut(cfg, nature, s);
    hide Next, Advanced, FaultAt, Poised, Config.Valid, Rejects, Blank, DeliveredEnvelope;
  }

  /** A step that delivers an event arrives at a time that can be recorded, and its kind is one that does. */
  lemma NoArrival(cfg: Config, step: int)
    ensures DeliversEvent(cfg, step) ==>
              && ArrivalTime(cfg, step) != 0
              && KindAt(cfg, step) != Some(MissingHeartbeatFault)
              && KindAt(cfg, step) != Some(UnavailableFault)
    ensures ArrivalTime(cfg, step) == 0 ==> Refusal(cfg, step) == ZeroReceiveTime
    ensures KindAt(cfg, step) != Some(UnavailableFault) || KindAt(cfg, step) != Some(MissingHeartbeatFault)
  {
    hide FaultAt, InstantOf, Padded;
  }

  lemma ByKindIf(cfg: Config, step: int, now: Time, r: Record)
    requires r.receivedAt == RecordedAt(cfg, step, now)
    requires r.telemetry.Some? <==> DeliversEvent(cfg, step)
    requires r.disposition.Missing? <==> KindAt(cfg, step) == Some(MissingHeartbeatFault)
    requires r.disposition.Unavailable? <==> KindAt(cfg, step) == Some(UnavailableFault) && ArrivalTime(cfg, step) != 0
    requires r.disposition.Unavailable? ==> r.healthStatus == Offline && r.healthReason == SourceUnavailable
    requires r.disposition.Rejected? <==>
             !DeliversEvent(cfg, step) && !r.disposition.Missing? && !r.disposition.Unavailable?
    requires r.disposition.Rejected? ==>
               && r.dispositionReason == Refusal(cfg, step)
               && r.healthStatus == Invalid
               && r.healthReason == Refusal(cfg, step)
    ensures RecordedByKind(cfg, step, now, r)
  {
    hide KindAt, DeliversEvent, ArrivalTime, Refusal, RecordedAt;
  }

  /** Every interval that goes on is recorded once, as the kind of its fault has it, whatever storage holds. */
  lemma KindIsRecorded(agent: Agent, hp: HealthPolicy, cfg: Config, nature: Nature, plant: Plant, tick: Tick)
    requires cfg.Valid() && nature.Lawful() && Wired(agent, cfg) && PlantSound(agent, cfg, nature, plant)
    ensures agent.policy.Valid()
    ensures var e := PlantInterval(agent, hp, cfg, nature, plant, tick);
            e.ending.Running? ==>
              && |e.records| == 1
              && Explained(agent, e.records[0])
              && RecordedByKind(cfg, plant.sim.step + 1, tick.now, e.records[0])
  {
    hide *;
    PolicyIsValid(agent, cfg);
    var envelope := HandedEnvelope(cfg, nature, plant.sim);
    var step := Step(envelope, tick.now, tick.fate);
    SoundParts(agent, cfg, nature, plant);
    PlantAdvances(agent, hp, cfg, nature, plant, tick);
    AdvancesMeans(agent, hp, cfg, nature, plant, tick, envelope);
    IntervalExplains(agent, hp, plant.memory, plant.db, step);
    var e := PlantInterval(agent, hp, cfg, nature, plant, tick);
    if e.ending.Running? {
      DescribedByKind(agent, cfg, nature, plant.sim, tick.now, tick.fate, e.records[0]);
    }
  }

  // ---------------------------------------------------------------------------------------------
  // What one record makes of the health

  /** The health after an interval, from what its record says and from the health and the state before. */
  function JudgedHealth(
    prior: DeviceHealth, state: State, hp: HealthPolicy, disposition: Disposition, reason: Reason, late: bool, at: Time)
    : DeviceHealth
  {
    match disposition
    case Duplicate => prior
    case Accepted =>
      if late then TransitionHealth(prior, Stale, ArrivedLate, at, at)
      else TransitionHealth(prior, Online, NoReason, at, at)
    case Rejected => TransitionHealth(prior, Invalid, reason, at, at)
    case Unavailable => TransitionHealth(prior, Offline, SourceUnavailable, at, prior.lastContactAt)
    case HistoryOnly => EvaluateHealth(prior, state, hp, at, at)
    case Missing => EvaluateHealth(prior, state, hp, at, prior.lastContactAt)
  }

  lemma ClassifiedIsJudged(input: ClassifyInput)
    requires Classify(input).Classified?
    ensures var r := Classify(input).result;
            r.health == JudgedHealth(input.priorHealth, input.priorState, input.policy, r.disposition, r.reason,
                                     r.suppressCommand, ReceivedAtOrNow(input.envelope, input.now))
  {
    hide EvaluateHealth, TransitionHealth, EventOf, ValidateRaw, Applied;
  }

  /** What settles an interval, in the terms of its record and of the health after it. */
  predicate Settles(
    hp: HealthPolicy, memory: Memory, db: Database, envelope: Option<Envelope>, r: Record, health: DeviceHealth)
  {
    var event := EventOf(envelope);
    && health == JudgedHealth(memory.health, memory.state, hp, r.disposition, r.dispositionReason, r.command.None?,
                              r.receivedAt)
    && r.healthStatus == health.status
    && r.healthReason == health.reason
    && r.healthTransitionAt == health.transitionTime
    && (r.disposition.Duplicate? <==> event.Some? && event.value.eventID in db.telemetry)
    && (r.disposition.Accepted? <==>
          event.Some? && event.value.eventID !in db.telemetry && Supersedes(event.value, memory.state))
  }

  lemma IntervalSettles(agent: Agent, hp: HealthPolicy, memory: Memory, db: Database, step: Step)
    requires agent.policy.Valid()
    ensures var e := Interval(agent, hp, memory, db, step);
            e.ending.Running? ==>
              |e.records| == 1 && Settles(hp, memory, db, step.envelope, e.records[0], e.memory.health)
  {
    var input := Input(memory, hp, agent.policy.interval, step.envelope, step.now);
    var failure := FailureOf(step.fate);
    var e := Interval(agent, hp, memory, db, step);
    IntervalCases(agent, hp, memory, db, step);
    ProcessUnfolds(agent, hp, memory, db, step.envelope, step.now, failure);
    if Classify(input).Classified? && e.ending.Running? {
      var c := Classify(input).result;
      var commit := Commit(db, Proposal(agent, c, step.envelope, step.now), failure);
      ClassifiedIsJudged(input);
      ClassifiedContents(input);
      DuplicateIsKnown(agent, input, db, failure);
      if commit.status.Ok? {
        SettledRecord(agent, hp, memory, db, step, c, commit.status.value);
      }
    }
    hide Classify, Commit, Process, Proposal, DecidedCommand, EventOf, Settled, RecordedBy, JudgedHealth, Settles,
      BuildRecord, ReceivedAtOrNow, Supersedes, Remembered, Interval;
  }

  lemma SettledRecord(
    agent: Agent, hp: HealthPolicy, memory: Memory, db: Database, step: Step, c: ClassifyResult, status: CommitStatus)
    requires agent.policy.Valid()
    requires c.health == JudgedHealth(memory.health, memory.state, hp, c.disposition, c.reason, c.suppressCommand,
                                      ReceivedAtOrNow(step.envelope, step.now))
    requires c.state.Some? <==> c.disposition.Accepted?
    requires c.state.Some? <==> EventOf(step.envelope).Some? && Supersedes(EventOf(step.envelope).value, memory.state)
    requires !c.disposition.Duplicate?
    requires status.CommitDuplicate?
             <==> EventOf(step.envelope).Some? && EventOf(step.envelope).value.eventID in db.telemetry
    ensures var o := Settled(c, DecidedCommand(agent.policy, c), status, memory.health);
            Settles(hp, memory, db, step.envelope, BuildRecord(agent, ReceivedAtOrNow(step.envelope, step.now), o),
                    Remembered(memory, c, status).health)
  {
    hide EventOf, Supersedes, EvaluateHealth, TransitionHealth, Policy.Decide, ReceivedAtOrNow;
  }

  // ---------------------------------------------------------------------------------------------
  // A run from the empty database, read off the schedule

  /** How a step is disposed of. */
  function Verdict(cfg: Config, step: int): Disposition
    requires step >= 1
  {
    if KindAt(cfg, step) == Some(MissingHeartbeatFault) then Missing
    else if KindAt(cfg, step) == Some(UnavailableFault) && ArrivalTime(cfg, step) != 0 then Unavailable
    else if !DeliversEvent(cfg, step) then Rejected
    else if !Fresh(cfg, step) then Duplicate
    else if Moves(cfg, step) then Accepted
    else HistoryOnly
  }

  /** A state of the age that the latest state has after a step. */
  function AgedState(cfg: Config, step: nat): State {
    ZERO_STATE.(updatedAt := if Newest(cfg, step).Some? then Time(Newest(cfg, step).value, true) else ZERO_TIME)
  }

  /** The device health after a step. */
  function ScheduledHealth(cfg: Config, hp: HealthPolicy, nows: seq<Time>, step: nat): DeviceHealth
    requires step <= |nows|
  {
    if step == 0 then ZERO_HEALTH
    else
      JudgedHealth(ScheduledHealth(cfg, hp, nows, step - 1), AgedState(cfg, step - 1), hp, Verdict(cfg, step),
                   Refusal(cfg, step), Age(cfg, step) > cfg.interval, RecordedAt(cfg, step, nows[step - 1]))
  }

  /** The record that the schedule and the clock call for: disposition, time, presence of a command, health. */
  predicate AsScheduled(cfg: Config, hp: HealthPolicy, nows: seq<Time>, step: nat, r: Record)
    requires 1 <= step <= |nows|
  {
    var health := ScheduledHealth(cfg, hp, nows, step);
    && r.disposition == Verdict(cfg, step)
    && r.receivedAt == RecordedAt(cfg, step, nows[step - 1])
    && (r.command.Some? <==> Verdict(cfg, step).Accepted? && Age(cfg, step) <= cfg.interval)
    && (r.disposition.Rejected? ==> r.dispositionReason == Refusal(cfg, step))
    && r.healthStatus == health.status
    && r.healthReason == health.reason
    && r.healthTransitionAt == health.transitionTime
  }

  /** The plant between two intervals of such a run. */
  predicate Tracked(
    agent: Agent, hp: HealthPolicy, cfg: Config, nature: Nature, nows: seq<Time>, plant: Plant)
  {
    && Own(agent, cfg, nature, plant)
    && plant.sim.step <= |nows|
    && plant.memory.health == ScheduledHealth(cfg, hp, nows, plant.sim.step)
  }

  lemma RememberedAge(cfg: Config, step: nat, state: State)
    requires Remembers(Newest(cfg, step), state)
    ensures state.updatedAt == AgedState(cfg, step).updatedAt
  {
    hide Newest;
  }

  /** Whether an accepted event is late, from the schedule. */
  lemma LatenessMeans(cfg: Config, nature: Nature, s: SimState, r: Record, now: Time)
    requires cfg.Valid() && nature.Lawful() && Poised(cfg, nature, s)
    requires DeliversEvent(cfg, s.step + 1)
    requires r.telemetry == EventOf(HandedEnvelope(cfg, nature, s))
    requires r.receivedAt == RecordedAt(cfg, s.step + 1, now)
    ensures r.telemetry.Some?
    ensures r.receivedAt.Sub(r.telemetry.value.eventTime) > cfg.interval <==> Age(cfg, s.step + 1) > cfg.interval
  {
    var k := s.step + 1;
    HandedOwn(cfg, nature, s);
    NoArrival(cfg, k);
    IntervalFitsDay(cfg);
    PositiveInterval(cfg);
    AgeOnArrival(cfg, k);
    hide EventOf, HandedEnvelope, Config.Valid, Nature.Lawful, Poised, DeliversEvent, DeliveredName, EventTime,
      ArrivalTime, KindAt, Refusal, Age;
  }

  lemma AgeOnArrival(cfg: Config, step: int)
    requires DeliversEvent(cfg, step) && cfg.interval > 0
    ensures ArrivalTime(cfg, step) - EventTime(cfg, step) == Age(cfg, step)
  {
    InstantsAdvance(cfg, step - 1);
    hide FaultAt, InstantOf, Padded;
  }

  lemma TrackedMeans(agent: Agent, hp: HealthPolicy, cfg: Config, nature: Nature, nows: seq<Time>, plant: Plant)
    requires Tracked(agent, hp, cfg, nature, nows, plant)
    ensures Own(agent, cfg, nature, plant) && plant.sim.step <= |nows|
    ensures plant.memory.health == ScheduledHealth(cfg, hp, nows, plant.sim.step)
  {
    hide Own, ScheduledHealth;
  }

  lemma ByKindMeans(cfg: Config, step: int, now: Time, r: Record)
    requires RecordedByKind(cfg, step, now, r)
    ensures r.receivedAt == RecordedAt(cfg, step, now)
    ensures r.telemetry.Some? <==> DeliversEvent(cfg, step)
    ensures r.disposition.Missing? <==> KindAt(cfg, step) == Some(MissingHeartbeatFault)
    ensures r.disposition.Unavailable? <==> KindAt(cfg, step) == Some(UnavailableFault) && ArrivalTime(cfg, step) != 0
    ensures r.disposition.Rejected? ==> r.dispositionReason == Refusal(cfg, step)
  {
    hide RecordedAt, DeliversEvent, KindAt, ArrivalTime, Refusal;
  }

  lemma SettlesMeans(
    hp: HealthPolicy, memory: Memory, db: Database, envelope: Option<Envelope>, r: Record, health: DeviceHealth)
    requires Settles(hp, memory, db, envelope, r, health)
    ensures health == JudgedHealth(memory.health, memory.state, hp, r.disposition, r.dispositionReason,
                                   r.command.None?, r.receivedAt)
    ensures r.healthStatus == health.status
    ensures r.healthReason == health.reason
    ensures r.healthTransitionAt == health.transitionTime
    ensures var event := EventOf(envelope);
            && (r.disposition.Duplicate? <==> event.Some? && event.value.eventID in db.telemetry)
            && (r.disposition.Accepted? <==>
                  event.Some? && event.value.eventID !in db.telemetry && Supersedes(event.value, memory.state))
  {
    hide JudgedHealth, EventOf, Supersedes;
  }

  lemma ExplainedMeans(agent: Agent, r: Record)
    requires agent.policy.Valid() && Explained(agent, r)
    ensures !r.disposition.Accepted? ==> r.command.None?
    ensures r.disposition.Accepted? ==>
              && r.telemetry.Some?
              && (r.command.None? <==> r.receivedAt.Sub(r.telemetry.value.eventTime) > agent.policy.interval)
  {
    hide Policy.Decide;
  }

  lemma VerdictMeans(cfg: Config, step: int, d: Disposition)
    requires step >= 1
    requires d.Missing? <==> KindAt(cfg, step) == Some(MissingHeartbeatFault)
    requires d.Unavailable? <==> KindAt(cfg, step) == Some(UnavailableFault) && ArrivalTime(cfg, step) != 0
    requires d.Rejected? <==> !DeliversEvent(cfg, step) && !d.Missing? && !d.Unavailable?
    requires DeliversEvent(cfg, step) ==> (d.Duplicate? <==> !Fresh(cfg, step)) && (d.Accepted? <==> Moves(cfg, step))
    ensures d == Verdict(cfg, step)
  {
    hide KindAt, ArrivalTime, DeliversEvent, Fresh, Newest, EventTime;
  }

  lemma JudgedAlike(
    prior: DeviceHealth, state: State, aged: State, hp: HealthPolicy, r: Record, refusal: Reason, late: bool)
    requires state.updatedAt == aged.updatedAt
    requires r.disposition.Rejected? ==> r.dispositionReason == refusal
    requires r.disposition.Accepted? ==> (r.command.None? <==> late)
    ensures JudgedHealth(prior, state, hp, r.disposition, r.dispositionReason, r.command.None?, r.receivedAt)
            == JudgedHealth(prior, aged, hp, r.disposition, refusal, late, r.receivedAt)
  {
  }

  lemma AsScheduledIf(
    cfg: Config, hp: HealthPolicy, nows: seq<Time>, step: nat, r: Record, state: State, health: DeviceHealth)
    requires 1 <= step <= |nows|
    requires DisposedAs(cfg, step, nows[step - 1], r)
    requires state.updatedAt == AgedState(cfg, step - 1).updatedAt
    requires health == JudgedHealth(ScheduledHealth(cfg, hp, nows, step - 1), state, hp, r.disposition,
                                    r.dispositionReason, r.command.None?, r.receivedAt)
    requires r.healthStatus == health.status
    requires r.healthReason == health.reason
    requires r.healthTransitionAt == health.transitionTime
    ensures AsScheduled(cfg, hp, nows, step, r) && health == ScheduledHealth(cfg, hp, nows, step)
  {
    JudgedAlike(ScheduledHealth(cfg, hp, nows, step - 1), state, AgedState(cfg, step - 1), hp, r, Refusal(cfg, step),
                Age(cfg, step) > cfg.interval);
    hide JudgedHealth, Verdict, Refusal, Age, RecordedAt, AgedState;
  }

  /** What a record says of its disposition and its command, from the schedule. */
  predicate DisposedAs(cfg: Config, step: int, now: Time, r: Record)
    requires step >= 1
  {
    && r.disposition == Verdict(cfg, step)
    && r.receivedAt == RecordedAt(cfg, step, now)
    && (r.command.Some? <==> r.disposition.Accepted? && Age(cfg, step) <= cfg.interval)
    && (r.disposition.Rejected? ==> r.dispositionReason == Refusal(cfg, step))
  }

  lemma DisposedAsScheduled(
    agent: Agent, hp: HealthPolicy, cfg: Config, nature: Nature, plant: Plant, tick: Tick, r: Record,
    health: DeviceHealth)
    requires cfg.Valid() && nature.Lawful() && nature.NamesApart() && Avoids(nature, cfg) && Wired(agent, cfg)
    requires agent.policy.Valid() && Own(agent, cfg, nature, plant) && Explained(agent, r)
    requires var envelope := HandedEnvelope(cfg, nature, plant.sim);
             && Settles(hp, plant.memory, plant.db, envelope, r, health)
             && Describes(Step(envelope, tick.now, tick.fate), r)
    ensures DisposedAs(cfg, plant.sim.step + 1, tick.now, r)
  {
    var k := plant.sim.step + 1;
    var envelope := HandedEnvelope(cfg, nature, plant.sim);
    hide *;
    OwnMeans(agent, cfg, nature, plant);
    DescribedByKind(agent, cfg, nature, plant.sim, tick.now, tick.fate, r);
    DescribedEvent(agent, Step(envelope, tick.now, tick.fate), r);
    VerdictReached(agent, hp, cfg, nature, plant, tick.now, r, health);
    ByKindMeans(cfg, k, tick.now, r);
    CommandedInTime(agent, cfg, nature, plant.sim, r, tick.now);
    DisposedIf(cfg, k, tick.now, r);
  }

  lemma DescribedEvent(agent: Agent, step: Step, r: Record)
    requires agent.policy.Valid() && Explained(agent, r) && Describes(step, r)
    ensures r.telemetry == EventOf(step.envelope)
    ensures r.disposition.Rejected? <==> r.telemetry.None? && !r.disposition.Missing? && !r.disposition.Unavailable?
  {
    hide EventOf, EnvelopeError, ValidateRaw, Policy.Decide;
  }

  lemma VerdictReached(
    agent: Agent, hp: HealthPolicy, cfg: Config, nature: Nature, plant: Plant, now: Time, r: Record,
    health: DeviceHealth)
    requires cfg.Valid() && nature.Lawful() && nature.NamesApart() && Avoids(nature, cfg) && Wired(agent, cfg)
    requires Own(agent, cfg, nature, plant)
    requires var envelope := HandedEnvelope(cfg, nature, plant.sim);
             && Settles(hp, plant.memory, plant.db, envelope, r, health)
             && r.telemetry == EventOf(envelope)
    requires RecordedByKind(cfg, plant.sim.step + 1, now, r)
    requires r.disposition.Rejected? <==> r.telemetry.None? && !r.disposition.Missing? && !r.disposition.Unavailable?
    ensures r.disposition == Verdict(cfg, plant.sim.step + 1)
  {
    var k := plant.sim.step + 1;
    hide *;
    ByKindMeans(cfg, k, now, r);
    OwnEvent(agent, cfg, nature, plant);
    FreshDelivers(cfg, k);
    SettlesMeans(hp, plant.memory, plant.db, HandedEnvelope(cfg, nature, plant.sim), r, health);
    VerdictMeans(cfg, k, r.disposition);
  }

  lemma FreshDelivers(cfg: Config, step: int)
    requires step >= 1
    ensures Moves(cfg, step) ==> Fresh(cfg, step)
    ensures Fresh(cfg, step) ==> DeliversEvent(cfg, step)
  {
    hide DeliversEvent, Newest, EventTime, FaultAt, HandsOver, NamedBefore;
  }

  lemma CommandedInTime(agent: Agent, cfg: Config, nature: Nature, s: SimState, r: Record, now: Time)
    requires cfg.Valid() && nature.Lawful() && Poised(cfg, nature, s) && Wired(agent, cfg)
    requires agent.policy.Valid() && Explained(agent, r)
    requires r.telemetry == EventOf(HandedEnvelope(cfg, nature, s))
    requires r.receivedAt == RecordedAt(cfg, s.step + 1, now)
    requires r.telemetry.Some? ==> DeliversEvent(cfg, s.step + 1)
    ensures r.command.Some? <==> r.disposition.Accepted? && Age(cfg, s.step + 1) <= cfg.interval
  {
    hide *;
    ExplainedMeans(agent, r);
    PolicyIsValid(agent, cfg);
    if r.telemetry.Some? {
      LatenessMeans(cfg, nature, s, r, now);
    }
  }

  lemma DisposedIf(cfg: Config, step: int, now: Time, r: Record)
    requires step >= 1
    requires r.disposition == Verdict(cfg, step) && r.receivedAt == RecordedAt(cfg, step, now)
    requires r.command.Some? <==> r.disposition.Accepted? && Age(cfg, step) <= cfg.interval
    requires r.disposition.Rejected? ==> r.dispositionReason == Refusal(cfg, step)
    ensures DisposedAs(cfg, step, now, r)
  {
    hide Verdict, RecordedAt, Age, Refusal;
  }

  /** A record that settles an interval and is described by its kind is the scheduled one. */
  lemma SettledAsScheduled(
    agent: Agent, hp: HealthPolicy, cfg: Config, nature: Nature, nows: seq<Time>, plant: Plant, tick: Tick, r: Record,
    health: DeviceHealth)
    requires cfg.Valid() && nature.Lawful() && nature.NamesApart() && Avoids(nature, cfg) && Wired(agent, cfg)
    requires agent.policy.Valid() && Explained(agent, r)
    requires Tracked(agent, hp, cfg, nature, nows, plant)
    requires plant.sim.step < |nows| && tick.now == nows[plant.sim.step]
    requires var envelope := HandedEnvelope(cfg, nature, plant.sim);
             && Settles(hp, plant.memory, plant.db, envelope, r, health)
             && Describes(Step(envelope, tick.now, tick.fate), r)
    ensures AsScheduled(cfg, hp, nows, plant.sim.step + 1, r)
    ensures health == ScheduledHealth(cfg, hp, nows, plant.sim.step + 1)
  {
    var k := plant.sim.step + 1;
    hide *;
    TrackedMeans(agent, hp, cfg, nature, nows, plant);
    OwnMeans(agent, cfg, nature, plant);
    DisposedAsScheduled(agent, hp, cfg, nature, plant, tick, r, health);
    SettlesMeans(hp, plant.memory, plant.db, HandedEnvelope(cfg, nature, plant.sim), r, health);
    RememberedAge(cfg, k - 1, plant.memory.state);
    AsScheduledIf(cfg, hp, nows, k, r, plant.memory.state, health);
  }

  lemma IntervalAsScheduled(
    agent: Agent, hp: HealthPolicy, cfg: Config, nature: Nature, nows: seq<Time>, plant: Plant, tick: Tick)
    requires cfg.Valid() && nature.Lawful() && nature.NamesApart() && Avoids(nature, cfg) && Wired(agent, cfg)
    requires Tracked(agent, hp, cfg, nature, nows, plant)
    requires plant.sim.step < |nows| && tick.now == nows[plant.sim.step]
    ensures agent.policy.Valid()
    ensures var e := PlantInterval(agent, hp, cfg, nature, plant, tick);
            && |e.records| == (if e.ending.Running? then 1 else 0)
            && (e.ending.Running? ==>
                  && Tracked(agent, hp, cfg, nature, nows, e.plant)
                  && e.plant.sim.step == plant.sim.step + 1
                  && AsScheduled(cfg, hp, nows, plant.sim.step + 1, e.records[0]))
  {
    hide *;
    PolicyIsValid(agent, cfg);
    TrackedMeans(agent, hp, cfg, nature, nows, plant);
    OwnMeans(agent, cfg, nature, plant);
    var envelope := HandedEnvelope(cfg, nature, plant.sim);
    var step := Step(envelope, tick.now, tick.fate);
    PlantAdvances(agent, hp, cfg, nature, plant, tick);
    AdvancesMeans(agent, hp, cfg, nature, plant, tick, envelope);
    CancelledIsSilent(agent, hp, cfg, nature, plant, tick);
    IntervalExplains(agent, hp, plant.memory, plant.db, step);
    IntervalSettles(agent, hp, plant.memory, plant.db, step);
    StaysOwn(agent, hp, cfg, nature, plant, tick);
    var e := PlantInterval(agent, hp, cfg, nature, plant, tick);
    if e.ending.Running? {
      SettledAsScheduled(agent, hp, cfg, nature, nows, plant, tick, e.records[0], e.plant.memory.health);
      TrackedIf(agent, hp, cfg, nature, nows, e.plant);
    }
  }

  lemma CancelledIsSilent(agent: Agent, hp: HealthPolicy, cfg: Config, nature: Nature, plant: Plant, tick: Tick)
    requires agent.policy.Valid() && cfg.batteryCapacityKWh > 0.0
    ensures tick.fate.Cancelled? ==> PlantInterval(agent, hp, cfg, nature, plant, tick).records == []
  {
    hide Interval, Next, Sunk;
  }

  lemma TrackedIf(agent: Agent, hp: HealthPolicy, cfg: Config, nature: Nature, nows: seq<Time>, plant: Plant)
    requires Own(agent, cfg, nature, plant) && plant.sim.step <= |nows|
    requires plant.memory.health == ScheduledHealth(cfg, hp, nows, plant.sim.step)
    ensures Tracked(agent, hp, cfg, nature, nows, plant)
  {
    hide Own, ScheduledHealth;
  }

  function Readings(ticks: seq<Tick>): seq<Time> {
    seq(|ticks|, i requires 0 <= i < |ticks| => ticks[i].now)
  }

  lemma {:induction false} LoopAsScheduled(
    agent: Agent, hp: HealthPolicy, cfg: Config, nature: Nature, nows: seq<Time>, plant: Plant, ticks: seq<Tick>)
    requires cfg.Valid() && nature.Lawful() && nature.NamesApart() && Avoids(nature, cfg) && Wired(agent, cfg)
    requires Tracked(agent, hp, cfg, nature, nows, plant)
    requires plant.sim.step + |ticks| <= |nows|
    requires forall i :: 0 <= i < |ticks| ==> ticks[i].now == nows[plant.sim.step + i]
    ensures agent.policy.Valid()
    ensures var e := PlantLoop(agent, hp, cfg, nature, plant, ticks);
            && |e.records| <= |ticks|
            && (e.ending.Running? ==> |e.records| == |ticks|)
            && (forall i :: 0 <= i < |e.records| ==>
                  AsScheduled(cfg, hp, nows, plant.sim.step + 1 + i, e.records[i]))
    decreases |ticks|
  {
    hide *;
    PolicyIsValid(agent, cfg);
    PlantLoopUnfolds(agent, hp, cfg, nature, plant, ticks);
    if ticks != [] {
      var first := PlantInterval(agent, hp, cfg, nature, plant, ticks[0]);
      assert ticks[0].now == nows[plant.sim.step + 0];
      IntervalAsScheduled(agent, hp, cfg, nature, nows, plant, ticks[0]);
      if first.ending.Running? {
        var rest := ticks[1..];
        forall i | 0 <= i < |rest| ensures rest[i].now == nows[first.plant.sim.step + i] {
          assert rest[i] == ticks[i + 1];
          assert ticks[i + 1].now == nows[plant.sim.step + (i + 1)];
        }
        LoopAsScheduled(agent, hp, cfg, nature, nows, first.plant, rest);
      }
    }
  }

  /** From the empty database, in any weather that names its samples apart and none as the schedule does, and for
      any battery: every record is the one that the schedule and the clock call for, and nothing else decides how
      a step is disposed of, whether its event is commanded, and what the device health is. */
  lemma ScheduleIsRecorded(agent: Agent, hp: HealthPolicy, cfg: Config, nature: Nature, ticks: seq<Tick>)
    requires cfg.Valid() && nature.Lawful() && nature.NamesApart() && Avoids(nature, cfg) && Wired(agent, cfg)
    ensures agent.policy.Valid()
    ensures var e := PlantLoop(agent, hp, cfg, nature, StartedPlant(cfg, nature, EMPTY_DATABASE), ticks);
            && |e.records| <= |ticks|
            && (e.ending.Running? ==> |e.records| == |ticks|)
            && (forall i :: 0 <= i < |e.records| ==> AsScheduled(cfg, hp, Readings(ticks), i + 1, e.records[i]))
  {
    hide *;
    var plant := StartedPlant(cfg, nature, EMPTY_DATABASE);
    var nows := Readings(ticks);
    StartsAccountable(agent, cfg, nature);
    AccountableParts(agent, cfg, nature, plant);
    ReadingsMean(ticks);
    StartsUnheard(cfg, hp, nature, nows);
    TrackedIf(agent, hp, cfg, nature, nows, plant);
    LoopAsScheduled(agent, hp, cfg, nature, nows, plant, ticks);
  }

  lemma ReadingsMean(ticks: seq<Tick>)
    ensures |Readings(ticks)| == |ticks|
    ensures forall i :: 0 <= i < |ticks| ==> Readings(ticks)[i] == ticks[i].now
  {
  }

  lemma StartsUnheard(cfg: Config, hp: HealthPolicy, nature: Nature, nows: seq<Time>)
    ensures StartedPlant(cfg, nature, EMPTY_DATABASE).memory.health == ScheduledHealth(cfg, hp, nows, 0)
  {
    hide Initial;
  }

  // ---------------------------------------------------------------------------------------------
  // Undisturbed runs go on

  lemma CalmGoesOn(agent: Agent, hp: HealthPolicy, cfg: Config, nature: Nature, plant: Plant, tick: Tick)
    requires cfg.Valid() && nature.Lawful() && Wired(agent, cfg) && PlantSound(agent, cfg, nature, plant) && Calm(tick)
    ensures agent.policy.Valid()
    ensures PlantInterval(agent, hp, cfg, nature, plant, tick).ending.Running?
  {
    hide *;
    PolicyIsValid(agent, cfg);
    CalmMeans(tick);
    SoundParts(agent, cfg, nature, plant);
    var envelope := HandedEnvelope(cfg, nature, plant.sim);
    StaleEnvelope(agent, cfg, nature, plant);
    Progress.IntervalContinues(agent, hp, plant.memory, plant.db, Step(envelope, tick.now, tick.fate));
    PlantAdvances(agent, hp, cfg, nature, plant, tick);
    AdvancesMeans(agent, hp, cfg, nature, plant, tick, envelope);
  }

  /** No schedule of faults stops a run on which nothing else goes wrong. */
  lemma {:induction false} CalmRunGoesOn(
    agent: Agent, hp: HealthPolicy, cfg: Config, nature: Nature, plant: Plant, ticks: seq<Tick>)
    requires cfg.Valid() && nature.Lawful() && Wired(agent, cfg) && PlantSound(agent, cfg, nature, plant)
    requires AllCalm(ticks)
    ensures agent.policy.Valid()
    ensures PlantLoop(agent, hp, cfg, nature, plant, ticks).ending.Running?
    decreases |ticks|
  {
    hide *;
    PolicyIsValid(agent, cfg);
    PlantLoopUnfolds(agent, hp, cfg, nature, plant, ticks);
    if ticks != [] {
      CalmParts(ticks);
      CalmGoesOn(agent, hp, cfg, nature, plant, ticks[0]);
      PlantStaysSound(agent, hp, cfg, nature, plant, ticks[0]);
      CalmRunGoesOn(
        agent, hp, cfg, nature, PlantInterval(agent, hp, cfg, nature, plant, ticks[0]).plant, ticks[1..]);
    }
  }
}
