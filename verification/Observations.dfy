/** What a telemetry source delivers: raw readings, the envelope around them, and the concrete
    event they become once every measurement is present, finite and in range. */
module Observations {
  import opened Basics

  /** A reported floating-point value; only raw readings can be NaN or infinite. */
  datatype Float = Finite(value: real) | NonFinite

  const MAXIMUM_SOC_PERCENT := 100.0

  datatype Telemetry = Telemetry(
    eventID: string,
    eventTime: Time,
    deviceID: string,
    pvPowerKW: real,
    loadPowerKW: real,
    batterySOCPercent: real,
    priceEURPerKWh: real)
  {
    predicate Valid() {
      TelemetryError(this).None?
    }
  }

  datatype RawTelemetry = RawTelemetry(
    eventID: string,
    eventTime: Time,
    deviceID: string,
    pvPowerKW: Option<Float>,
    loadPowerKW: Option<Float>,
    batterySOCPercent: Option<Float>,
    priceEURPerKWh: Option<Float>)

  datatype Envelope = Envelope(
    sourceDeviceID: string,
    receivedAt: Time,
    telemetry: Option<RawTelemetry>,
    available: bool)

  /** `Telemetry.Validate`: the first failed check, if any. */
  function TelemetryError(t: Telemetry): Option<Reason> {
    ReadingError(t.eventID, t.eventTime, t.deviceID, Finite(t.pvPowerKW), Finite(t.loadPowerKW),
                 Finite(t.batterySOCPercent), Finite(t.priceEURPerKWh))
  }

  function ReadingError(
    eventID: string, eventTime: Time, deviceID: string, pv: Float, load: Float, soc: Float, price: Float)
    : Option<Reason>
  {
    if Blank(eventID) then Some(EmptyEventID)
    else if Padded(eventID) then Some(PaddedEventID)
    else if eventTime.IsZero() then Some(ZeroEventTime)
    else if Blank(deviceID) then Some(EmptyDeviceID)
    else if pv.NonFinite? || pv.value < 0.0 then Some(BadPVPower)
    else if load.NonFinite? || load.value < 0.0 then Some(BadLoadPower)
    else if soc.NonFinite? || soc.value < 0.0 || soc.value > MAXIMUM_SOC_PERCENT then Some(BadBatterySOC)
    else if price.NonFinite? || price.value <= 0.0 then Some(BadPrice)
    else None
  }

  /** `RawTelemetry.Validate`: an absent measurement is reported before any present value is checked. */
  function ValidateRaw(r: RawTelemetry): (result: Result<Telemetry>)
    ensures result.Ok? ==> result.value.Valid()
  {
    if r.pvPowerKW.None? then Err(MissingPVPower)
    else if r.loadPowerKW.None? then Err(MissingLoadPower)
    else if r.batterySOCPercent.None? then Err(MissingBatterySOC)
    else if r.priceEURPerKWh.None? then Err(MissingPrice)
    else
      match ReadingError(r.eventID, r.eventTime, r.deviceID, r.pvPowerKW.value, r.loadPowerKW.value,
                         r.batterySOCPercent.value, r.priceEURPerKWh.value)
      case Some(e) => Err(e)
      case None =>
        Ok(Telemetry(r.eventID, r.eventTime, r.deviceID, r.pvPowerKW.value.value, r.loadPowerKW.value.value,
                     r.batterySOCPercent.value.value, r.priceEURPerKWh.value.value))
  }

  /** The reading that reports exactly an event's values. */
  function Complete(t: Telemetry): RawTelemetry {
    RawTelemetry(
      t.eventID, t.eventTime, t.deviceID, Some(Finite(t.pvPowerKW)), Some(Finite(t.loadPowerKW)),
      Some(Finite(t.batterySOCPercent)), Some(Finite(t.priceEURPerKWh)))
  }

  /** The readings that pass are exactly the complete reports of valid events, and each becomes its own
      event. */
  lemma ValidatedIffComplete(r: RawTelemetry, t: Telemetry)
    ensures ValidateRaw(r) == Ok(t) <==> r == Complete(t) && t.Valid()
  {
  }

  /** A valid event, measurement by measurement. */
  lemma ValidEvent(t: Telemetry)
    ensures t.Valid() <==>
            && !Blank(t.eventID)
            && !Padded(t.eventID)
            && t.eventTime.ns != 0
            && !Blank(t.deviceID)
            && t.pvPowerKW >= 0.0
            && t.loadPowerKW >= 0.0
            && 0.0 <= t.batterySOCPercent <= 100.0
            && t.priceEURPerKWh > 0.0
  {
  }

  /** The measurements of a household. */
  datatype Measurement = NoMeasurement | PVPower | LoadPower | BatterySOC | Price

  function Reading(r: RawTelemetry, m: Measurement): Option<Float>
    requires !m.NoMeasurement?
  {
    match m
    case PVPower => r.pvPowerKW
    case LoadPower => r.loadPowerKW
    case BatterySOC => r.batterySOCPercent
    case Price => r.priceEURPerKWh
  }

  /** The reported values a measurement can have. */
  predicate InRange(m: Measurement, value: Float) {
    && value.Finite?
    && match m
       case NoMeasurement => true
       case PVPower | LoadPower => value.value >= 0.0
       case BatterySOC => 0.0 <= value.value <= 100.0
       case Price => value.value > 0.0
  }

  function MissingReason(m: Measurement): Reason
    requires !m.NoMeasurement?
  {
    match m
    case PVPower => MissingPVPower
    case LoadPower => MissingLoadPower
    case BatterySOC => MissingBatterySOC
    case Price => MissingPrice
  }

  function BadReason(m: Measurement): Reason
    requires !m.NoMeasurement?
  {
    match m
    case PVPower => BadPVPower
    case LoadPower => BadLoadPower
    case BatterySOC => BadBatterySOC
    case Price => BadPrice
  }

  /** The order in which measurements are looked at. */
  const MEASUREMENTS: seq<Measurement> := [PVPower, LoadPower, BatterySOC, Price]

  /** A reading fails for the first measurement that is absent; else for its ID, its time or its device ID, in
      this order; else for the first measurement that is out of range. */
  lemma RejectionLaw(r: RawTelemetry, k: nat)
    requires ValidateRaw(r).Err? && k < 4
    ensures var e := ValidateRaw(r).error;
            && (e == MissingReason(MEASUREMENTS[k]) <==>
                  && Reading(r, MEASUREMENTS[k]).None?
                  && forall j :: 0 <= j < k ==> Reading(r, MEASUREMENTS[j]).Some?)
            && ((forall j :: 0 <= j < 4 ==> Reading(r, MEASUREMENTS[j]).Some?) ==>
                  && (e == EmptyEventID <==> Blank(r.eventID))
                  && (e == PaddedEventID <==> !Blank(r.eventID) && Padded(r.eventID))
                  && (e == ZeroEventTime <==> !Padded(r.eventID) && !Blank(r.eventID) && r.eventTime.ns == 0)
                  && (e == EmptyDeviceID <==>
                        !Padded(r.eventID) && !Blank(r.eventID) && r.eventTime.ns != 0 && Blank(r.deviceID))
                  && (e == BadReason(MEASUREMENTS[k]) <==>
                        && !Padded(r.eventID) && !Blank(r.eventID) && r.eventTime.ns != 0 && !Blank(r.deviceID)
                        && !InRange(MEASUREMENTS[k], Reading(r, MEASUREMENTS[k]).value)
                        && forall j :: 0 <= j < k ==> InRange(MEASUREMENTS[j], Reading(r, MEASUREMENTS[j]).value)))
  {
    assert Reading(r, MEASUREMENTS[0]) == r.pvPowerKW && Reading(r, MEASUREMENTS[1]) == r.loadPowerKW;
    assert Reading(r, MEASUREMENTS[2]) == r.batterySOCPercent && Reading(r, MEASUREMENTS[3]) == r.priceEURPerKWh;
    hide Blank, Padded;
  }

  /** `ObservationEnvelope.Validate`. */
  function EnvelopeError(e: Envelope): Option<Reason> {
    if Blank(e.sourceDeviceID) then Some(EmptySourceDeviceID)
    else if e.receivedAt.IsZero() then Some(ZeroReceiveTime)
    else if !e.receivedAt.utc then Some(NonUTCReceiveTime)
    else if e.available && e.telemetry.None? then Some(AvailableWithoutTelemetry)
    else if !e.available && e.telemetry.Some? then Some(UnavailableWithTelemetry)
    else None
  }

  /** What is wrong with an envelope, first things first. */
  lemma EnvelopeLaw(e: Envelope)
    ensures var bad := EnvelopeError(e);
            && (bad == Some(EmptySourceDeviceID) <==> Blank(e.sourceDeviceID))
            && (bad == Some(ZeroReceiveTime) <==> !Blank(e.sourceDeviceID) && e.receivedAt.ns == 0)
            && (bad == Some(NonUTCReceiveTime) <==>
                  !Blank(e.sourceDeviceID) && e.receivedAt.ns != 0 && !e.receivedAt.utc)
            && (bad.None? || bad == Some(AvailableWithoutTelemetry) || bad == Some(UnavailableWithTelemetry) <==>
                  !Blank(e.sourceDeviceID) && e.receivedAt.ns != 0 && e.receivedAt.utc)
            && (bad.None? ==> (e.available <==> e.telemetry.Some?))
            && (bad == Some(AvailableWithoutTelemetry) ==> e.available && e.telemetry.None?)
            && (bad == Some(UnavailableWithTelemetry) ==> !e.available && e.telemetry.Some?)
  {
  }

  /** The time an observation counts as received at. */
  function ReceivedAtOrNow(envelope: Option<Envelope>, now: Time): (at: Time)
    ensures now.Durable() ==> at.Durable()
  {
    if envelope.None? then now
    else if envelope.value.receivedAt.IsZero() || !envelope.value.receivedAt.utc then now
    else envelope.value.receivedAt
  }

  /** The event an observation carries when it is well-formed throughout: what ends up in history
      whatever the state and health of the device. */
  function EventOf(envelope: Option<Envelope>): (event: Option<Telemetry>)
    ensures event.Some? ==> event.value.Valid()
  {
    if envelope.None? || EnvelopeError(envelope.value).Some? || !envelope.value.available then None
    else
      match ValidateRaw(envelope.value.telemetry.value)
      case Err(_) => None
      case Ok(event) =>
        if event.deviceID != envelope.value.sourceDeviceID then None
        else if event.eventTime.After(envelope.value.receivedAt) then None
        else Some(event)
  }
}
