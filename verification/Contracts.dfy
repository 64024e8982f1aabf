/** The durable records of one interval and the conditions the storage boundary puts on them. */
module Contracts {
  import opened Basics
  import opened Observations
  import opened LatestState
  import opened Health
  import opened ControlPolicy
  import opened Classifier

  datatype TelemetryRecord = TelemetryRecord(
    event: Telemetry,
    receivedAt: Time,
    disposition: Disposition,
    dispositionReason: Reason)

  datatype CommandRecord = CommandRecord(eventID: string, command: Command, createdAt: Time)

  datatype ObservationResult = ObservationResult(
    deviceID: string,
    telemetry: Option<TelemetryRecord>,
    latestState: Option<State>,
    command: Option<CommandRecord>,
    health: DeviceHealth)
  {
    predicate Valid() {
      ResultError(this).None?
    }
  }

  datatype CommitStatus = CommitStored | CommitDuplicate

  datatype DeviceSnapshot = DeviceSnapshot(state: State, health: DeviceHealth)

  const ZERO_SNAPSHOT := DeviceSnapshot(ZERO_STATE, ZERO_HEALTH)

  function TimeError(t: Time): Option<Reason> {
    if t.IsZero() then Some(ZeroTimestamp)
    else if !t.utc then Some(NonUTCTimestamp)
    else None
  }

  function FirstOf(first: Option<Reason>, second: Option<Reason>): Option<Reason> {
    if first.Some? then first else second
  }

  /** `ObservationResult.Validate`. */
  function ResultError(r: ObservationResult): Option<Reason> {
    if Blank(r.deviceID) then Some(EmptyDeviceID)
    else
      FirstOf(TelemetryPartError(r), FirstOf(StatePartError(r), FirstOf(CommandPartError(r), HealthError(r.health))))
  }

  function TelemetryPartError(r: ObservationResult): Option<Reason> {
    if r.telemetry.None? then None
    else
      var t := r.telemetry.value;
      if TelemetryError(t.event).Some? then Some(InvalidTelemetryRecord)
      else if TimeError(t.event.eventTime).Some? then TimeError(t.event.eventTime)
      else if TimeError(t.receivedAt).Some? then TimeError(t.receivedAt)
      else if t.event.deviceID != r.deviceID then Some(RecordDeviceMismatch)
      else if !t.disposition.Accepted? && !t.disposition.HistoryOnly? then Some(BadRecordDisposition)
      else None
  }

  function StatePartError(r: ObservationResult): Option<Reason> {
    if r.latestState.None? then None
    else if r.telemetry.None? || !r.telemetry.value.disposition.Accepted? then Some(StateWithoutAcceptedTelemetry)
    else
      match Applied(ZERO_STATE, r.telemetry.value.event)
      case Err(e) => Some(e)
      case Ok(expected) => if r.latestState.value != expected then Some(StateMismatch) else None
  }

  function CommandPartError(r: ObservationResult): Option<Reason> {
    if r.command.None? then None
    else if r.latestState.None? || r.telemetry.None? then Some(CommandWithoutState)
    else if r.command.value.eventID != r.telemetry.value.event.eventID then Some(CommandEventMismatch)
    else if CommandError(r.command.value.command).Some? then Some(InvalidCommandRecord)
    else TimeError(r.command.value.createdAt)
  }

  function HealthError(health: DeviceHealth): Option<Reason> {
    if health.status.NoStatus? then Some(UnknownHealthStatus)
    else if TimeError(health.transitionTime).Some? then TimeError(health.transitionTime)
    else if !health.lastContactAt.utc then Some(NonUTCTimestamp)
    else None
  }

  /** What passes validation: a kept event is a valid, durable-time event of the result's own
      device; a state is that event's state and accepted; a command is that event's command. */
  predicate WellShaped(r: ObservationResult) {
    && r.deviceID != ""
    && DurableHealth(r.health)
    && (r.telemetry.Some? ==>
          && r.telemetry.value.event.Valid()
          && r.telemetry.value.event.eventTime.Durable()
          && r.telemetry.value.receivedAt.Durable()
          && r.telemetry.value.event.deviceID == r.deviceID
          && (r.telemetry.value.disposition.Accepted? || r.telemetry.value.disposition.HistoryOnly?))
    && (r.latestState.Some? ==>
          && r.telemetry.Some?
          && r.telemetry.value.disposition.Accepted?
          && r.latestState.value == StateOf(r.telemetry.value.event))
    && (r.command.Some? ==>
          && r.latestState.Some?
          && r.command.value.eventID == r.telemetry.value.event.eventID
          && r.command.value.command.Valid()
          && r.command.value.createdAt.Durable())
  }

  /** The fault that a reason names is there. */
  predicate HasFault(r: ObservationResult, reason: Reason) {
    match reason
    case EmptyDeviceID => Blank(r.deviceID)
    case InvalidTelemetryRecord => r.telemetry.Some? && !r.telemetry.value.event.Valid()
    case RecordDeviceMismatch => r.telemetry.Some? && r.telemetry.value.event.deviceID != r.deviceID
    case BadRecordDisposition => r.telemetry.Some? && r.telemetry.value.disposition !in {Accepted, HistoryOnly}
    case StateWithoutAcceptedTelemetry =>
      r.latestState.Some? && (r.telemetry.None? || r.telemetry.value.disposition != Accepted)
    case StateMismatch =>
      r.latestState.Some? && r.telemetry.Some? && r.latestState.value != StateOf(r.telemetry.value.event)
    case CommandWithoutState => r.command.Some? && (r.latestState.None? || r.telemetry.None?)
    case CommandEventMismatch =>
      r.command.Some? && r.telemetry.Some? && r.command.value.eventID != r.telemetry.value.event.eventID
    case InvalidCommandRecord => r.command.Some? && !r.command.value.command.Valid()
    case UnknownHealthStatus => r.health.status == NoStatus
    case ZeroTimestamp =>
      || r.health.transitionTime.ns == 0
      || (r.telemetry.Some? && r.telemetry.value.receivedAt.ns == 0)
      || (r.command.Some? && r.command.value.createdAt.ns == 0)
    case NonUTCTimestamp =>
      || !r.health.transitionTime.utc
      || !r.health.lastContactAt.utc
      || (r.telemetry.Some? && !(r.telemetry.value.receivedAt.utc && r.telemetry.value.event.eventTime.utc))
      || (r.command.Some? && !r.command.value.createdAt.utc)
    case _ => false
  }

  lemma TelemetryFault(r: ObservationResult)
    ensures TelemetryPartError(r).Some? ==> HasFault(r, TelemetryPartError(r).value)
    ensures r.telemetry.Some? && TelemetryPartError(r).None? ==> TelemetryError(r.telemetry.value.event).None?
  {
    if r.telemetry.Some? && r.telemetry.value.event.Valid() {
      ValidEvent(r.telemetry.value.event);
    }
    hide TelemetryError, Blank, Padded;
  }

  lemma StateFault(r: ObservationResult)
    requires r.telemetry.Some? ==> TelemetryError(r.telemetry.value.event).None?
    ensures StatePartError(r).Some? ==> HasFault(r, StatePartError(r).value)
  {
    hide TelemetryError, Blank;
  }

  lemma CommandFault(r: ObservationResult)
    ensures CommandPartError(r).Some? ==> HasFault(r, CommandPartError(r).value)
    ensures HealthError(r.health).Some? ==> HasFault(r, HealthError(r.health).value)
  {
    hide CommandError, Blank;
  }

  /** The reason for which a result is refused names a fault that it has. */
  lemma RefusalNamesTheFault(r: ObservationResult)
    requires !r.Valid()
    ensures HasFault(r, ResultError(r).value)
  {
    TelemetryFault(r);
    CommandFault(r);
    if TelemetryPartError(r).None? {
      StateFault(r);
    }
    if Blank(r.deviceID) {
      assert HasFault(r, EmptyDeviceID);
    }
    hide HasFault, TelemetryPartError, StatePartError, CommandPartError, HealthError, Blank;
  }

  /** The event is looked at first, then the state, the command and the health: what is wrong with an earlier part
      is reported whatever the later parts are. */
  lemma RefusalOrder(r: ObservationResult, good: DeviceHealth)
    requires DurableHealth(good)
    ensures var event := r.(latestState := None, command := None, health := good);
            !event.Valid() ==> ResultError(r) == ResultError(event)
    ensures var state := r.(command := None, health := good);
            !state.Valid() ==> ResultError(r) == ResultError(state)
    ensures var command := r.(health := good);
            !command.Valid() ==> ResultError(r) == ResultError(command)
  {
    hide ReadingError, CommandError, Blank;
  }

  /** Validation accepts exactly the well-shaped results of a device with a non-blank ID. */
  lemma ValidIffWellShaped(r: ObservationResult)
    ensures r.Valid() <==> !Blank(r.deviceID) && WellShaped(r)
  {
  }
}
