/** The latest accepted measurements of one device, and the strictly-newer rule that guards them. */
module LatestState {
  import opened Basics
  import opened Observations

  datatype State = State(
    lastEventID: string,
    deviceID: string,
    updatedAt: Time,
    pvPowerKW: real,
    loadPowerKW: real,
    batterySOCPercent: real,
    priceEURPerKWh: real)

  const ZERO_STATE := State("", "", ZERO_TIME, 0.0, 0.0, 0.0, 0.0)

  function StateOf(t: Telemetry): State {
    State(t.eventID, t.deviceID, t.eventTime, t.pvPowerKW, t.loadPowerKW, t.batterySOCPercent, t.priceEURPerKWh)
  }

  /** An event replaces a state when there is no state yet or the event is strictly newer. */
  predicate Supersedes(event: Telemetry, state: State) {
    state.updatedAt.IsZero() || event.eventTime.After(state.updatedAt)
  }

  /** The value `State.ApplyTelemetry` leaves in its receiver, or the error it returns. */
  function Applied(state: State, event: Telemetry): Result<State> {
    if TelemetryError(event).Some? then Err(TelemetryError(event).value)
    else if state.deviceID != "" && event.deviceID != state.deviceID then Err(DeviceMismatch)
    else if !Supersedes(event, state) then Ok(state)
    else Ok(StateOf(event))
  }

  /** An event is refused exactly if it is invalid or of another device; otherwise the newer of state and event
      stands, and a state made by an event reports its identity, its time and each of its measurements. */
  lemma AppliedLaw(state: State, event: Telemetry)
    ensures var next := Applied(state, event);
            && (next.Err? <==> !event.Valid() || (state.deviceID != "" && state.deviceID != event.deviceID))
            && (next == Err(DeviceMismatch) <==>
                  event.Valid() && state.deviceID != "" && state.deviceID != event.deviceID)
            && (!event.Valid() ==> next == Err(TelemetryError(event).value))
            && (next.Ok? && state.updatedAt.ns != 0 && event.eventTime.ns <= state.updatedAt.ns ==> next.value == state)
            && (next.Ok? && (state.updatedAt.ns == 0 || event.eventTime.ns > state.updatedAt.ns) ==>
                  && next.value.lastEventID == event.eventID
                  && next.value.deviceID == event.deviceID
                  && next.value.updatedAt == event.eventTime
                  && next.value.pvPowerKW == event.pvPowerKW
                  && next.value.loadPowerKW == event.loadPowerKW
                  && next.value.batterySOCPercent == event.batterySOCPercent
                  && next.value.priceEURPerKWh == event.priceEURPerKWh)
  {
    hide Blank, Padded;
  }

  /** The mutable record behind `*State`. */
  class StateRecord {
    var lastEventID: string
    var deviceID: string
    var updatedAt: Time
    var pvPowerKW: real
    var loadPowerKW: real
    var batterySOCPercent: real
    var priceEURPerKWh: real

    function Value(): State
      reads this
    {
      State(lastEventID, deviceID, updatedAt, pvPowerKW, loadPowerKW, batterySOCPercent, priceEURPerKWh)
    }

    constructor (initial: State)
      ensures Value() == initial
    {
      lastEventID := initial.lastEventID;
      deviceID := initial.deviceID;
      updatedAt := initial.updatedAt;
      pvPowerKW := initial.pvPowerKW;
      loadPowerKW := initial.loadPowerKW;
      batterySOCPercent := initial.batterySOCPercent;
      priceEURPerKWh := initial.priceEURPerKWh;
    }

    /** Returns nil (None) or an error; an error leaves the record unchanged. */
    method ApplyTelemetry(event: Telemetry) returns (err: Option<Reason>)
      modifies this
      ensures match Applied(old(Value()), event)
              case Ok(next) => err.None? && Value() == next
              case Err(e) => err == Some(e) && Value() == old(Value())
    {
      if TelemetryError(event).Some? {
        return TelemetryError(event);
      }
      if deviceID != "" && event.deviceID != deviceID {
        return Some(DeviceMismatch);
      }
      if !updatedAt.IsZero() && !event.eventTime.After(updatedAt) {
        return None;
      }
      lastEventID := event.eventID;
      deviceID := event.deviceID;
      updatedAt := event.eventTime;
      pvPowerKW := event.pvPowerKW;
      loadPowerKW := event.loadPowerKW;
      batterySOCPercent := event.batterySOCPercent;
      priceEURPerKWh := event.priceEURPerKWh;
      return None;
    }
  }
}
