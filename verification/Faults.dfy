/** Deterministic delivery anomalies, and the schedule that places at most one at each step. */
module Faults {
  import opened Basics
  import opened Observations

  /** Go's `int` on a 64-bit platform. */
  type Int64 = x: int | MIN_INT64 <= x <= MAX_INT64

  datatype FaultKind =
    | DuplicateFault
    | OutOfOrderFault
    | DelayFault
    | MissingValueFault
    | InvalidMeasurementFault
    | MissingHeartbeatFault
    | UnavailableFault
    | UnknownFault

  datatype Fault = Fault(
    step: Int64,
    repeat: Int64,
    kind: FaultKind,
    eventTimeOffset: int,
    eventID: string,
    delay: int,
    measurement: Measurement,
    value: Float)
  {
    function RepeatCount(): Int64 {
      if repeat <= 0 then 1 else repeat
    }

    function First(): Int64 {
      step
    }

    /** The addition wraps around at 64 bits. */
    function Last(): int {
      Wrap64(step + RepeatCount() - 1)
    }

    predicate ActiveAt(at: int) {
      First() <= at <= Last()
    }

    predicate Overlaps(other: Fault) {
      First() <= other.Last() && other.First() <= Last()
    }

    /** The steps the configuration means, without wrap-around. */
    predicate Means(at: int) {
      at == step || step <= at < step + repeat
    }

    predicate Fits() {
      step + repeat - 1 <= MAX_INT64
    }

    /** `Fault.Validate`. */
    predicate Valid() {
      && step >= 1
      && repeat >= 0
      && match kind
         case DuplicateFault => step != 1
         case MissingHeartbeatFault | UnavailableFault => true
         case OutOfOrderFault => eventTimeOffset < 0 && !Blank(eventID)
         case DelayFault => delay > 0
         case MissingValueFault => !measurement.NoMeasurement?
         case InvalidMeasurementFault => !measurement.NoMeasurement? && Rejects(measurement, value)
         case UnknownFault => false
    }
  }

  const SAMPLE := RawTelemetry(
    "fault-check", Time(63_082_281_600_000_000_000, true), "fault-check",
    Some(Finite(1.0)), Some(Finite(1.0)), Some(Finite(50.0)), Some(Finite(0.30)))

  function Substitute(raw: RawTelemetry, m: Measurement, value: Option<Float>): RawTelemetry {
    match m
    case NoMeasurement => raw
    case PVPower => raw.(pvPowerKW := value)
    case LoadPower => raw.(loadPowerKW := value)
    case BatterySOC => raw.(batterySOCPercent := value)
    case Price => raw.(priceEURPerKWh := value)
  }

  /** Whether domain validation refuses the sample once `value` stands in for a measurement. */
  predicate Rejects(m: Measurement, value: Float) {
    ValidateRaw(Substitute(SAMPLE, m, Some(value))).Err?
  }

  /** The accepted faults, kind by kind. */
  lemma AcceptedFault(f: Fault)
    ensures f.Valid() <==>
            && f.step >= 1
            && f.repeat >= 0
            && !f.kind.UnknownFault?
            && (f.kind.DuplicateFault? ==> f.step >= 2)
            && (f.kind.OutOfOrderFault? ==> f.eventTimeOffset <= -1 && !Blank(f.eventID))
            && (f.kind.DelayFault? ==> f.delay >= 1)
            && (f.kind.MissingValueFault? ==> !f.measurement.NoMeasurement?)
            && (f.kind.InvalidMeasurementFault? ==>
                  !f.measurement.NoMeasurement? && !InRange(f.measurement, f.value))
  {
    RejectedIffOutOfRange(f.measurement, f.value);
    hide Rejects, Blank, InRange;
  }

  /** The check on a throw-away sample refuses exactly the values that are out of their measurement's range. */
  lemma RejectedIffOutOfRange(m: Measurement, value: Float)
    ensures !m.NoMeasurement? ==> (Rejects(m, value) <==> !InRange(m, value))
  {
    SampleIsSound();
  }

  /** Standing in for one measurement changes that one and nothing else. */
  lemma SubstituteLaw(raw: RawTelemetry, m: Measurement, value: Option<Float>, other: Measurement)
    requires !m.NoMeasurement? && !other.NoMeasurement?
    ensures var changed := Substitute(raw, m, value);
            && Reading(changed, other) == (if other == m then value else Reading(raw, other))
            && changed.eventID == raw.eventID
            && changed.eventTime == raw.eventTime
            && changed.deviceID == raw.deviceID
  {
  }

  /** A value rejected on the sample is rejected in every telemetry that carries it. */
  lemma RejectedEverywhere(raw: RawTelemetry, m: Measurement, value: Float)
    requires Rejects(m, value)
    ensures ValidateRaw(Substitute(raw, m, Some(value))).Err?
  {
    SampleIsSound();
  }

  lemma SampleIsSound()
    ensures !Blank(SAMPLE.eventID) && !Padded(SAMPLE.eventID) && !Blank(SAMPLE.deviceID)
  {
    assert SAMPLE.eventID[0] == 'f';
  }

  lemma OmittedIsRejected(raw: RawTelemetry, m: Measurement)
    requires !m.NoMeasurement?
    ensures ValidateRaw(Substitute(raw, m, None)).Err?
  {
  }

  // ---------------------------------------------------------------------------------------------
  // Step ranges

  /** A valid fault applies at exactly the steps it is configured for, unless their last step does not
      fit an `int`: then it applies nowhere. */
  lemma ActiveIffMeant(f: Fault, at: int)
    requires f.Valid()
    ensures f.ActiveAt(at) <==> f.Fits() && f.Means(at)
  {
    var last := f.step + f.RepeatCount() - 1;
    if f.Fits() {
      assert Wrap64(last) == last;
    } else {
      assert Wrap64(last) == last - TWO_64;
    }
  }

  /** Two valid faults overlap exactly when they share a step and both step ranges fit. */
  lemma OverlapIffShared(f: Fault, g: Fault)
    requires f.Valid() && g.Valid()
    ensures f.Overlaps(g) <==> f.Fits() && g.Fits() && exists at :: f.Means(at) && g.Means(at)
    ensures f.Overlaps(g) <==> exists at :: f.ActiveAt(at) && g.ActiveAt(at)
  {
    ActiveIffMeant(f, f.First());
    ActiveIffMeant(g, g.First());
    ActiveIffMeant(f, g.First());
    ActiveIffMeant(g, f.First());
    if f.Overlaps(g) {
      var at := if f.First() <= g.First() then g.First() else f.First();
      assert f.ActiveAt(at) && g.ActiveAt(at);
    }
    forall at ensures f.ActiveAt(at) <==> f.Fits() && f.Means(at) {
      ActiveIffMeant(f, at);
    }
    forall at ensures g.ActiveAt(at) <==> g.Fits() && g.Means(at) {
      ActiveIffMeant(g, at);
    }
  }

  /** The overflow is reachable: a valid fault that silently never applies. */
  lemma OverflowingFaultNeverApplies()
    ensures var f := Fault(2, MAX_INT64, MissingHeartbeatFault, 0, "", 0, NoMeasurement, NonFinite);
            f.Valid() && f.Means(2) && forall at :: !f.ActiveAt(at)
  {
    var f := Fault(2, MAX_INT64, MissingHeartbeatFault, 0, "", 0, NoMeasurement, NonFinite);
    forall at ensures !f.ActiveAt(at) {
      ActiveIffMeant(f, at);
    }
  }

  // ---------------------------------------------------------------------------------------------
  // Schedules

  type FaultSchedule = seq<Fault>

  predicate ScheduleValid(s: FaultSchedule) {
    && (forall i :: 0 <= i < |s| ==> s[i].Valid())
    && (forall i, j :: 0 <= i < j < |s| ==> !s[i].Overlaps(s[j]))
  }

  /** `FaultSchedule.Validate`. */
  method Validate(s: FaultSchedule) returns (valid: bool)
    ensures valid <==> ScheduleValid(s)
  {
    for i := 0 to |s|
      invariant forall k :: 0 <= k < i ==> s[k].Valid()
    {
      if !s[i].Valid() {
        return false;
      }
    }
    for i := 0 to |s|
      invariant forall k, l :: 0 <= k < i && k < l < |s| ==> !s[k].Overlaps(s[l])
    {
      for j := i + 1 to |s|
        invariant forall l :: i < l < j ==> !s[i].Overlaps(s[l])
      {
        if s[i].Overlaps(s[j]) {
          return false;
        }
      }
    }
    return true;
  }

  /** The first fault active at a step. */
  function FaultAt(s: FaultSchedule, at: int): Option<Fault> {
    if s == [] then None
    else if s[0].ActiveAt(at) then Some(s[0])
    else FaultAt(s[1..], at)
  }

  /** `FaultSchedule.at`. */
  method At(s: FaultSchedule, at: int) returns (fault: Option<Fault>)
    ensures fault == FaultAt(s, at)
  {
    for i := 0 to |s|
      invariant FaultAt(s, at) == FaultAt(s[i..], at)
    {
      if s[i].ActiveAt(at) {
        return Some(s[i]);
      }
      assert s[i..][1..] == s[i + 1..];
    }
    return None;
  }

  lemma {:induction false} FaultAtFinds(s: FaultSchedule, at: int)
    ensures FaultAt(s, at).None? <==> forall i :: 0 <= i < |s| ==> !s[i].ActiveAt(at)
    ensures FaultAt(s, at).Some? ==> FaultAt(s, at).value in s && FaultAt(s, at).value.ActiveAt(at)
  {
    if s != [] && !s[0].ActiveAt(at) {
      FaultAtFinds(s[1..], at);
      forall i | 1 <= i < |s| ensures s[1..][i - 1] == s[i] {
      }
    }
  }

  /** A validated schedule has at most one fault active at any step, so it is a partial function of
      the step: any list with the same faults, in any order, gives the same one. */
  lemma ScheduleIsAFunction(s: FaultSchedule, t: FaultSchedule, at: int)
    requires ScheduleValid(s)
    requires forall f :: f in s <==> f in t
    ensures forall i, j :: 0 <= i < |s| && 0 <= j < |s| && s[i].ActiveAt(at) && s[j].ActiveAt(at) ==> i == j
    ensures FaultAt(s, at) == FaultAt(t, at)
  {
    forall i, j | 0 <= i < j < |s| && s[i].ActiveAt(at) ensures !s[j].ActiveAt(at) {
      OverlapIffShared(s[i], s[j]);
    }
    FaultAtFinds(s, at);
    FaultAtFinds(t, at);
    if FaultAt(s, at).Some? {
      assert FaultAt(s, at).value in t;
    }
    if FaultAt(t, at).Some? {
      assert FaultAt(t, at).value in s;
    }
  }
}
