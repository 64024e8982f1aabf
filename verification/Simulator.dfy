/** The simulated household: a stateful telemetry source and command sink with a battery, daily
    profiles and scheduled faults. */
module Simulator {
  import opened Basics
  import opened Observations
  import opened ControlPolicy
  import opened Battery
  import opened Faults

  const SIMULATION_DURATION := 24 * NANOS_PER_HOUR
  const NANOS_PER_SECOND := 1_000_000_000

  /** What the simulator takes from outside: its random stream, the half-wave `sin(pi * x)`, the bell curve
      `exp(-x * x / 2)`, and the hash that names events. */
  datatype Nature = Nature(
    random: nat -> real,
    sine: real -> real,
    bell: real -> real,
    eventID: (string, int) -> string)
  {
    ghost predicate Lawful() {
      && (forall i :: 0.0 <= random(i) < 1.0)
      && (forall x :: 0.0 <= sine(x) <= 1.0)
      && (forall x :: 0.0 <= bell(x) <= 1.0)
      && (forall d, t :: !Blank(eventID(d, t)) && !Padded(eventID(d, t)))
    }

    /** Different intervals of a device have different event IDs. */
    ghost predicate NamesApart() {
      forall d, t, t' :: eventID(d, t) == eventID(d, t') ==> t == t'
    }
  }

  datatype Config = Config(
    start: Time,
    interval: int,
    deviceID: string,
    batteryCapacityKWh: real,
    startingBatterySOCPercent: real,
    pvPeakPowerKW: real,
    loadBasePowerKW: real,
    priceBaseEURPerKWh: real,
    faults: FaultSchedule)
  {
    /** `Config.Validate`. */
    predicate Valid() {
      && !start.IsZero()
      && interval > 0
      && SIMULATION_DURATION % interval == 0
      && batteryCapacityKWh > 0.0
      && OnScale(startingBatterySOCPercent)
      && pvPeakPowerKW > 0.0
      && loadBasePowerKW > 0.0
      && priceBaseEURPerKWh > 0.0
      && !Blank(deviceID)
      && ScheduleValid(faults)
    }
  }

  /** The accepted configurations: in particular every interval of which a whole number makes a day. */
  lemma AcceptedConfig(cfg: Config)
    ensures cfg.Valid() <==>
            && cfg.start.ns != 0
            && (exists n :: n >= 1 && n * cfg.interval == 86_400_000_000_000)
            && cfg.batteryCapacityKWh > 0.0
            && 0.0 <= cfg.startingBatterySOCPercent <= 100.0
            && cfg.pvPeakPowerKW > 0.0
            && cfg.loadBasePowerKW > 0.0
            && cfg.priceBaseEURPerKWh > 0.0
            && !Blank(cfg.deviceID)
            && ScheduleValid(cfg.faults)
  {
    WholeDay(cfg.interval);
    hide Blank, ScheduleValid;
  }

  lemma PositiveInterval(cfg: Config)
    requires cfg.Valid()
    ensures cfg.interval > 0
  {
    hide ScheduleValid, Blank;
  }

  lemma WholeDay(interval: int)
    ensures interval > 0 && SIMULATION_DURATION % interval == 0 <==>
            exists n :: n >= 1 && n * interval == 86_400_000_000_000
  {
    if interval > 0 && SIMULATION_DURATION % interval == 0 {
      var n := SIMULATION_DURATION / interval;
      assert n * interval == SIMULATION_DURATION;
      assert n >= 1;
    }
    if n :| n >= 1 && n * interval == 86_400_000_000_000 {
      if interval <= 0 {
        NotPositive(n, interval);
      }
      Multiple(n, interval);
    }
  }

  lemma NotPositive(n: int, interval: int)
    requires n >= 1 && interval <= 0
    ensures n * interval <= 0
  {
  }

  lemma Multiple(n: int, interval: int)
    requires n >= 1
    ensures interval > 0 ==> n * interval % interval == 0
  {
    if interval > 0 {
      var q := n * interval / interval;
      var r := n * interval % interval;
      assert n * interval == q * interval + r;
      assert (n - q) * interval == r;
      NoMultipleBetween(n - q, interval);
    }
  }

  lemma NoMultipleBetween(d: int, interval: int)
    requires interval > 0
    ensures 0 <= d * interval < interval ==> d == 0
  {
    if d >= 1 {
      TimesAtLeast(d, interval);
    } else if d <= -1 {
      TimesAtLeast(-d, interval);
      assert (-d) * interval == -(d * interval);
    }
  }

  lemma TimesAtLeast(d: int, interval: int)
    requires d >= 1 && interval > 0
    ensures d * interval >= interval
  {
    assert (d - 1) * interval >= 0;
  }

  datatype Sample = Sample(
    eventID: string,
    eventTime: Time,
    pvPowerKW: real,
    loadPowerKW: real,
    batterySOCPercent: real,
    priceEURPerKWh: real)

  const ZERO_SAMPLE := Sample("", ZERO_TIME, 0.0, 0.0, 0.0, 0.0)

  /** The simulator's fields; `drawn` counts what was taken from the random stream. */
  datatype SimState = SimState(
    currentTime: Time,
    batterySOCPercent: real,
    drawn: nat,
    dayEnd: Time,
    dailyPVFactor: real,
    dailyLoadFactor: real,
    dailyPriceFactor: real,
    pendingTelemetry: bool,
    step: nat,
    pending: Sample,
    prior: Sample)

  // ---------------------------------------------------------------------------------------------
  // Profiles

  function HourOfDay(at: Time): real {
    ((at.ns / NANOS_PER_SECOND) % 86_400) as real / 3600.0
  }

  /** `dailyGaussian`: a bell around a peak hour, over the distance the short way around the clock. */
  function DailyBell(nature: Nature, hour: real, peakHour: real, widthHours: real): real
    requires widthHours > 0.0
  {
    var distance := if hour >= peakHour then hour - peakHour else peakHour - hour;
    nature.bell((if distance <= 24.0 - distance then distance else 24.0 - distance) / widthHours)
  }

  function PVPowerKW(cfg: Config, nature: Nature, at: Time, dailyFactor: real): real {
    var hour := HourOfDay(at);
    if hour <= 6.0 || hour >= 18.0 then 0.0
    else cfg.pvPeakPowerKW * dailyFactor * nature.sine((hour - 6.0) / (18.0 - 6.0))
  }

  function LoadPowerKW(cfg: Config, nature: Nature, at: Time, dailyFactor: real): real {
    var hour := HourOfDay(at);
    var morningDemand := 1.5 * DailyBell(nature, hour, 7.0, 1.5);
    var eveningDemand := 2.5 * DailyBell(nature, hour, 19.0, 2.0);
    cfg.loadBasePowerKW * dailyFactor * (1.0 + morningDemand + eveningDemand)
  }

  function PriceEURPerKWh(cfg: Config, nature: Nature, at: Time, dailyFactor: real): real {
    var hour := HourOfDay(at);
    var morningPeak := 0.2 * DailyBell(nature, hour, 7.0, 1.5);
    var middayDip := 0.15 * DailyBell(nature, hour, 13.0, 2.5);
    var eveningPeak := 0.65 * DailyBell(nature, hour, 19.0, 2.0);
    cfg.priceBaseEURPerKWh * dailyFactor * (1.0 + morningPeak - middayDip + eveningPeak)
  }

  function RandomFactor(nature: Nature, draw: nat, minimum: real, maximum: real): real {
    minimum + (maximum - minimum) * nature.random(draw)
  }

  // ---------------------------------------------------------------------------------------------
  // Steps as values

  function StartedDay(nature: Nature, s: SimState): SimState {
    s.(dayEnd := s.currentTime.Add(SIMULATION_DURATION),
       dailyPVFactor := RandomFactor(nature, s.drawn, 0.8, 1.0),
       dailyLoadFactor := RandomFactor(nature, s.drawn + 1, 0.85, 1.15),
       dailyPriceFactor := RandomFactor(nature, s.drawn + 2, 0.9, 1.1),
       drawn := s.drawn + 3)
  }

  function Initial(cfg: Config, nature: Nature): SimState {
    StartedDay(nature, SimState(
      Time(cfg.start.ns, true), cfg.startingBatterySOCPercent, 0, ZERO_TIME, 0.0, 0.0, 0.0, false, 0,
      ZERO_SAMPLE, ZERO_SAMPLE))
  }

  /** The interval's own sample, whatever is delivered of it. */
  function NaturalSample(cfg: Config, nature: Nature, s: SimState): Sample {
    Sample(
      nature.eventID(cfg.deviceID, s.currentTime.ns),
      s.currentTime,
      PVPowerKW(cfg, nature, s.currentTime, s.dailyPVFactor),
      LoadPowerKW(cfg, nature, s.currentTime, s.dailyLoadFactor),
      s.batterySOCPercent,
      PriceEURPerKWh(cfg, nature, s.currentTime, s.dailyPriceFactor))
  }

  function RawOf(deviceID: string, sample: Sample): RawTelemetry {
    RawTelemetry(
      sample.eventID, sample.eventTime, deviceID, Some(Finite(sample.pvPowerKW)), Some(Finite(sample.loadPowerKW)),
      Some(Finite(sample.batterySOCPercent)), Some(Finite(sample.priceEURPerKWh)))
  }

  function FullEnvelope(deviceID: string, sample: Sample, receivedAt: Time): Envelope {
    Envelope(deviceID, receivedAt, Some(RawOf(deviceID, sample)), true)
  }

  /** What is delivered of an interval under the fault of its step, if any. */
  function DeliveredEnvelope(cfg: Config, s: SimState, fault: Option<Fault>): Option<Envelope> {
    var at := s.pending.eventTime;
    if fault.None? then Some(FullEnvelope(cfg.deviceID, s.pending, at))
    else
      var f := fault.value;
      match f.kind
      case MissingHeartbeatFault => None
      case UnavailableFault => Some(Envelope(cfg.deviceID, at, None, false))
      case DuplicateFault => Some(FullEnvelope(cfg.deviceID, s.prior, at))
      case OutOfOrderFault =>
        Some(FullEnvelope(
          cfg.deviceID, s.pending.(eventID := f.eventID, eventTime := at.Add(f.eventTimeOffset)), at))
      case DelayFault => Some(FullEnvelope(cfg.deviceID, s.pending, at.Add(f.delay)))
      case MissingValueFault =>
        Some(Envelope(cfg.deviceID, at, Some(Substitute(RawOf(cfg.deviceID, s.pending), f.measurement, None)), true))
      case InvalidMeasurementFault =>
        Some(Envelope(
          cfg.deviceID, at, Some(Substitute(RawOf(cfg.deviceID, s.pending), f.measurement, Some(f.value))), true))
      case UnknownFault => None
  }

  function Measured(sample: Sample, m: Measurement): real
    requires !m.NoMeasurement?
  {
    match m
    case PVPower => sample.pvPowerKW
    case LoadPower => sample.loadPowerKW
    case BatterySOC => sample.batterySOCPercent
    case Price => sample.priceEURPerKWh
  }

  /** The kind of fault at a step, if there is one. */
  function KindOf(fault: Option<Fault>): Option<FaultKind> {
    if fault.Some? then Some(fault.value.kind) else None
  }

  /** What the agent gets under each kind of fault. Only a missing heartbeat delivers nothing, only an
      unavailable source delivers no reading, and only a delay arrives after its interval began, by exactly
      its length. A reading is the interval's own sample, or the one before under a duplicate, with the one
      measurement that a fault names left out or replaced; and only a re-dated one has another name or time. */
  lemma DeliveredByKind(cfg: Config, s: SimState, fault: Option<Fault>)
    requires fault.Some? ==> fault.value.Valid()
    ensures var delivered := DeliveredEnvelope(cfg, s, fault);
            var kind := KindOf(fault);
            && (delivered.None? <==> kind == Some(MissingHeartbeatFault))
            && (delivered.Some? ==>
                  var e := delivered.value;
                  var sample := if kind == Some(DuplicateFault) then s.prior else s.pending;
                  && e.sourceDeviceID == cfg.deviceID
                  && e.receivedAt.utc == s.pending.eventTime.utc
                  && e.receivedAt.ns - s.pending.eventTime.ns ==
                     (if kind == Some(DelayFault) then fault.value.delay else 0)
                  && (e.available <==> e.telemetry.Some?)
                  && (e.telemetry.None? <==> kind == Some(UnavailableFault))
                  && (e.telemetry.Some? ==>
                        var raw := e.telemetry.value;
                        && raw.deviceID == cfg.deviceID
                        && raw.eventID ==
                           (if kind == Some(OutOfOrderFault) then fault.value.eventID else sample.eventID)
                        && raw.eventTime.utc == sample.eventTime.utc
                        && raw.eventTime.ns - sample.eventTime.ns ==
                           (if kind == Some(OutOfOrderFault) then fault.value.eventTimeOffset else 0)
                        && (forall m: Measurement :: !m.NoMeasurement? ==>
                              Reading(raw, m) ==
                              if kind == Some(MissingValueFault) && m == fault.value.measurement then None
                              else if kind == Some(InvalidMeasurementFault) && m == fault.value.measurement then
                                Some(fault.value.value)
                              else Some(Finite(Measured(sample, m))))))
  {
    hide Rejects, Blank;
  }

  /** The state after `NextObservation` hands out an interval. */
  function Advanced(cfg: Config, nature: Nature, s: SimState): SimState {
    var day := if s.currentTime.ns < s.dayEnd.ns then s else StartedDay(nature, s);
    day.(step := s.step + 1, pendingTelemetry := true, pending := NaturalSample(cfg, nature, day))
  }

  predicate UnknownFaultAt(cfg: Config, step: nat) {
    FaultAt(cfg.faults, step).Some? && FaultAt(cfg.faults, step).value.kind.UnknownFault?
  }

  datatype Handover = HandoverFailed | Handover(envelope: Option<Envelope>)

  function Next(cfg: Config, nature: Nature, s: SimState): (SimState, Handover) {
    if s.pendingTelemetry then (s, HandoverFailed)
    else
      var next := Advanced(cfg, nature, s);
      if UnknownFaultAt(cfg, next.step) then (next, HandoverFailed)
      else (next, Handover(DeliveredEnvelope(cfg, next, FaultAt(cfg.faults, next.step))))
  }

  /** `Complete`; a nil command holds the battery idle for the interval. */
  function Completed(cfg: Config, s: SimState, command: Option<Command>): (result: (SimState, bool))
    requires cfg.batteryCapacityKWh > 0.0
  {
    if !s.pendingTelemetry || (command.Some? && !command.value.Valid()) then (s, false)
    else
      var power := if command.Some? then CommandBatteryPowerKW(command.value) else 0.0;
      (s.(batterySOCPercent :=
            NextBatterySOCPercent(s.batterySOCPercent, power, cfg.interval, cfg.batteryCapacityKWh),
          prior := s.pending,
          currentTime := s.currentTime.Add(cfg.interval),
          pendingTelemetry := false),
       true)
  }

  /** What completing an interval does to the battery, from the command's decision and power alone: a charge
      is stored up to full, a discharge taken out down to empty, and an idle command or none leaves it. */
  lemma CompletionMovesEnergy(cfg: Config, s: SimState, command: Option<Command>)
    requires cfg.batteryCapacityKWh > 0.0 && cfg.interval > 0
    requires s.pendingTelemetry && OnScale(s.batterySOCPercent)
    requires command.Some? ==> command.value.Valid()
    ensures var (done, ok) := Completed(cfg, s, command);
            var capacity := cfg.batteryCapacityKWh;
            var before := EnergyKWh(s.batterySOCPercent, capacity);
            var after := EnergyKWh(done.batterySOCPercent, capacity);
            && ok
            && OnScale(done.batterySOCPercent)
            && (command.None? || command.value.decision.Idle? ==> done.batterySOCPercent == s.batterySOCPercent)
            && (command.Some? && command.value.decision.Charge? ==>
                  after == Min(before + PowerKWh(command.value.powerKW, cfg.interval), capacity))
            && (command.Some? && command.value.decision.Discharge? ==>
                  after == Max(before - PowerKWh(command.value.powerKW, cfg.interval), 0.0))
  {
    if command.Some? {
      CommandMovesEnergy(s.batterySOCPercent, command.value, cfg.interval, cfg.batteryCapacityKWh);
    } else {
      IdleHolds(s.batterySOCPercent, cfg.interval, cfg.batteryCapacityKWh);
    }
    hide EnergyKWh, NextBatterySOCPercent, CommandBatteryPowerKW, CommandError, PowerKWh;
  }

  // ---------------------------------------------------------------------------------------------
  // The simulator as an object

  class Household {
    const cfg: Config
    const nature: Nature
    var currentTime: Time
    var batterySOCPercent: real
    var drawn: nat
    var dayEnd: Time
    var dailyPVFactor: real
    var dailyLoadFactor: real
    var dailyPriceFactor: real
    var pendingTelemetry: bool
    var step: nat
    var pending: Sample
    var prior: Sample

    function Fields(): SimState
      reads this
    {
      SimState(currentTime, batterySOCPercent, drawn, dayEnd, dailyPVFactor, dailyLoadFactor, dailyPriceFactor,
               pendingTelemetry, step, pending, prior)
    }

    /** The part of `New` after validation. */
    constructor (cfg: Config, nature: Nature)
      requires cfg.Valid()
      ensures this.cfg == cfg && this.nature == nature
      ensures Fields() == Initial(cfg, nature)
    {
      this.cfg := cfg;
      this.nature := nature;
      currentTime := Time(cfg.start.ns, true);
      batterySOCPercent := cfg.startingBatterySOCPercent;
      drawn, dayEnd, dailyPVFactor, dailyLoadFactor, dailyPriceFactor := 0, ZERO_TIME, 0.0, 0.0, 0.0;
      pendingTelemetry, step, pending, prior := false, 0, ZERO_SAMPLE, ZERO_SAMPLE;
      new;
      StartDay();
    }

    /** `New`: no simulator for an invalid configuration. */
    static method New(cfg: Config, nature: Nature) returns (household: Household?)
      ensures household != null <==> cfg.Valid()
      ensures household != null ==>
                && fresh(household)
                && household.cfg == cfg
                && household.nature == nature
                && household.Fields() == Initial(cfg, nature)
    {
      if !cfg.Valid() {
        return null;
      }
      household := new Household(cfg, nature);
    }

    method StartDay()
      modifies this
      ensures Fields() == StartedDay(nature, old(Fields()))
    {
      dayEnd := currentTime.Add(SIMULATION_DURATION);
      dailyPVFactor := RandomFactor(nature, drawn, 0.8, 1.0);
      drawn := drawn + 1;
      dailyLoadFactor := RandomFactor(nature, drawn, 0.85, 1.15);
      drawn := drawn + 1;
      dailyPriceFactor := RandomFactor(nature, drawn, 0.9, 1.1);
      drawn := drawn + 1;
    }

    method NextObservation() returns (handover: Handover)
      modifies this
      ensures (Fields(), handover) == Next(cfg, nature, old(Fields()))
    {
      hide PVPowerKW, LoadPowerKW, PriceEURPerKWh, DeliveredEnvelope, FaultAt;
      if pendingTelemetry {
        return HandoverFailed;
      }
      if currentTime.ns >= dayEnd.ns {
        StartDay();
      }
      step := step + 1;
      pending := Sample(
        nature.eventID(cfg.deviceID, currentTime.ns),
        currentTime,
        PVPowerKW(cfg, nature, currentTime, dailyPVFactor),
        LoadPowerKW(cfg, nature, currentTime, dailyLoadFactor),
        batterySOCPercent,
        PriceEURPerKWh(cfg, nature, currentTime, dailyPriceFactor));
      pendingTelemetry := true;

      var fault := At(cfg.faults, step);
      if fault.Some? && fault.value.kind.UnknownFault? {
        return HandoverFailed;
      }
      handover := Handover(DeliveredEnvelope(cfg, Fields(), fault));
    }

    method Complete(command: Option<Command>) returns (ok: bool)
      requires cfg.batteryCapacityKWh > 0.0
      modifies this
      ensures (Fields(), ok) == Completed(cfg, old(Fields()), command)
    {
      if !pendingTelemetry {
        return false;
      }
      var batteryPowerKW := 0.0;
      if command.Some? {
        if !command.value.Valid() {
          return false;
        }
        batteryPowerKW := CommandBatteryPowerKW(command.value);
      }
      batterySOCPercent :=
        NextBatterySOCPercent(batterySOCPercent, batteryPowerKW, cfg.interval, cfg.batteryCapacityKWh);
      prior := pending;
      currentTime := currentTime.Add(cfg.interval);
      pendingTelemetry := false;
      ok := true;
    }
  }

  // ---------------------------------------------------------------------------------------------
  // Samples are valid measurements

  predicate SoundFactors(s: SimState) {
    s.dailyPVFactor > 0.0 && s.dailyLoadFactor > 0.0 && s.dailyPriceFactor > 0.0
  }

  predicate SoundSample(sample: Sample) {
    && !Blank(sample.eventID)
    && !Padded(sample.eventID)
    && sample.eventTime.utc
    && sample.pvPowerKW >= 0.0
    && sample.loadPowerKW >= 0.0
    && OnScale(sample.batterySOCPercent)
    && sample.priceEURPerKWh > 0.0
  }

  lemma FactorsAreSound(nature: Nature, s: SimState)
    requires nature.Lawful()
    ensures SoundFactors(StartedDay(nature, s))
  {
    assert 0.0 <= nature.random(s.drawn) < 1.0;
    assert 0.0 <= nature.random(s.drawn + 1) < 1.0;
    assert 0.0 <= nature.random(s.drawn + 2) < 1.0;
  }

  lemma Product3(a: real, b: real, c: real)
    requires a > 0.0 && b > 0.0
    ensures c >= 0.0 ==> a * b * c >= 0.0
    ensures c > 0.0 ==> a * b * c > 0.0
  {
    var d := a * b;
    assert d > 0.0;
  }

  /** Whatever the weather, each interval's own sample is a valid measurement, but for its time. */
  lemma NaturalSampleIsSound(cfg: Config, nature: Nature, s: SimState)
    requires cfg.Valid() && nature.Lawful()
    requires SoundFactors(s) && OnScale(s.batterySOCPercent) && s.currentTime.utc
    ensures SoundSample(NaturalSample(cfg, nature, s))
  {
    var hour := HourOfDay(s.currentTime);
    var morning, noon, evening :=
      DailyBell(nature, hour, 7.0, 1.5), DailyBell(nature, hour, 13.0, 2.5), DailyBell(nature, hour, 19.0, 2.0);
    assert 0.0 <= morning <= 1.0 && 0.0 <= noon <= 1.0 && 0.0 <= evening <= 1.0;
    assert 0.0 <= nature.sine((hour - 6.0) / 12.0);
    Product3(cfg.pvPeakPowerKW, s.dailyPVFactor, nature.sine((hour - 6.0) / 12.0));
    Product3(cfg.loadBasePowerKW, s.dailyLoadFactor, 1.0 + 1.5 * morning + 2.5 * evening);
    Product3(cfg.priceBaseEURPerKWh, s.dailyPriceFactor, 1.0 + 0.2 * morning - 0.15 * noon + 0.65 * evening);
    hide DailyBell, HourOfDay, ScheduleValid, Blank, Padded, Nature.Lawful;
  }
}
