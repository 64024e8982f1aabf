/** The shared disposition and health rules: how one interval's observation is recorded, whether
    it replaces the latest state, whether its command may run, and what the device health becomes. */
module Classifier {
  import opened Basics
  import opened Observations
  import opened LatestState
  import opened Health

  datatype Disposition = Accepted | HistoryOnly | Duplicate | Rejected | Missing | Unavailable

  datatype ClassifyInput = ClassifyInput(
    envelope: Option<Envelope>,
    priorState: State,
    priorHealth: DeviceHealth,
    policy: HealthPolicy,
    interval: int,
    now: Time)

  datatype ClassifyResult = ClassifyResult(
    disposition: Disposition,
    reason: Reason,
    telemetry: Option<Telemetry>,
    state: Option<State>,
    suppressCommand: bool,
    health: DeviceHealth)

  /** `Panicked` is the `panic` in `accepted`. */
  datatype Classification = Panicked | Classified(result: ClassifyResult)

  function Classify(input: ClassifyInput): Classification {
    if input.envelope.None? then Classified(ClassifyMissing(input))
    else if EnvelopeError(input.envelope.value).Some? then
      Classified(RejectedResult(input, EnvelopeError(input.envelope.value).value))
    else if !input.envelope.value.available then Classified(ClassifyUnavailable(input, input.envelope.value))
    else ClassifyTelemetry(input, input.envelope.value)
  }

  function ClassifyTelemetry(input: ClassifyInput, envelope: Envelope): Classification
    requires envelope.telemetry.Some?
  {
    match ValidateRaw(envelope.telemetry.value)
    case Err(e) => Classified(RejectedResult(input, e))
    case Ok(event) =>
      if event.deviceID != envelope.sourceDeviceID then Classified(RejectedResult(input, DeviceMismatch))
      else if event.eventTime.After(envelope.receivedAt) then Classified(RejectedResult(input, EventAfterReceive))
      else if !input.priorState.updatedAt.IsZero() && !event.eventTime.After(input.priorState.updatedAt) then
        Classified(HistoryOnlyResult(input, envelope, event))
      else AcceptedResult(input, envelope, event)
  }

  function AcceptedResult(input: ClassifyInput, envelope: Envelope, event: Telemetry): Classification {
    match Applied(input.priorState, event)
    case Err(_) => Panicked
    case Ok(newState) =>
      var delayed := envelope.receivedAt.Sub(event.eventTime) > input.interval;
      var status := if delayed then Stale else Online;
      var reason := if delayed then ArrivedLate else NoReason;
      Classified(ClassifyResult(
        Accepted, NoReason, Some(event), Some(newState), delayed,
        TransitionHealth(input.priorHealth, status, reason, envelope.receivedAt, envelope.receivedAt)))
  }

  function HistoryOnlyResult(input: ClassifyInput, envelope: Envelope, event: Telemetry): ClassifyResult {
    ClassifyResult(
      HistoryOnly, NotNewerThanState, Some(event), None, true,
      EvaluateHealth(input.priorHealth, input.priorState, input.policy, envelope.receivedAt, envelope.receivedAt))
  }

  function RejectedResult(input: ClassifyInput, reason: Reason): ClassifyResult {
    var receivedAt := ReceivedAtOrNow(input.envelope, input.now);
    ClassifyResult(
      Rejected, reason, None, None, true,
      TransitionHealth(input.priorHealth, Invalid, reason, receivedAt, receivedAt))
  }

  function ClassifyMissing(input: ClassifyInput): ClassifyResult {
    ClassifyResult(
      Missing, NoObservation, None, None, true,
      EvaluateHealth(input.priorHealth, input.priorState, input.policy, input.now, input.priorHealth.lastContactAt))
  }

  function ClassifyUnavailable(input: ClassifyInput, envelope: Envelope): ClassifyResult {
    ClassifyResult(
      Unavailable, SourceUnavailable, None, None, true,
      TransitionHealth(input.priorHealth, Offline, SourceUnavailable, envelope.receivedAt,
                       input.priorHealth.lastContactAt))
  }

  predicate ContactLost(policy: HealthPolicy, now: Time, lastContactAt: Time) {
    !lastContactAt.IsZero() && now.Sub(lastContactAt) >= policy.offlineAfter
  }

  predicate LatestEventStale(policy: HealthPolicy, now: Time, latestState: State) {
    !latestState.updatedAt.IsZero() && now.Sub(latestState.updatedAt) >= policy.staleAfter
  }

  function EvaluateHealth(
    prior: DeviceHealth, latestState: State, policy: HealthPolicy, now: Time, lastContactAt: Time): DeviceHealth
  {
    if ContactLost(policy, now, lastContactAt) then
      TransitionHealth(prior, Offline, NoContact, now, lastContactAt)
    else if prior.status.Invalid? then
      TransitionHealth(prior, Invalid, prior.reason, now, lastContactAt)
    else if LatestEventStale(policy, now, latestState) then
      TransitionHealth(prior, Stale, LatestEventTooOld, now, lastContactAt)
    else
      TransitionHealth(prior, Online, NoReason, now, lastContactAt)
  }

  /** The transition time is carried forward unless the status changes. */
  function TransitionHealth(
    prior: DeviceHealth, status: HealthStatus, reason: Reason, at: Time, lastContactAt: Time): DeviceHealth
  {
    var transitionTime :=
      if status != prior.status || prior.transitionTime.IsZero() then at else prior.transitionTime;
    DeviceHealth(status, reason, transitionTime, lastContactAt)
  }

  // ---------------------------------------------------------------------------------------------
  // What the rules promise

  /** The panic is reached exactly by a well-formed, newer event of another device than the state's. */
  lemma PanicsExactlyOnForeignDevice(input: ClassifyInput)
    ensures Classify(input).Panicked? <==>
            && EventOf(input.envelope).Some?
            && Supersedes(EventOf(input.envelope).value, input.priorState)
            && input.priorState.deviceID != ""
            && input.priorState.deviceID != EventOf(input.envelope).value.deviceID
  {
  }

  /** Whether an event is kept does not depend on state, health or clock; whether it replaces the
      latest state depends only on the state, and then the new state is the event's own. */
  lemma ClassifiedContents(input: ClassifyInput)
    requires Classify(input).Classified?
    ensures var r := Classify(input).result;
            var event := EventOf(input.envelope);
            && r.telemetry == event
            && (r.state.Some? <==> event.Some? && Supersedes(event.value, input.priorState))
            && (r.state.Some? ==> r.state.value == StateOf(event.value))
            && (r.state.Some? <==> r.disposition.Accepted?)
            && (event.Some? <==> r.disposition.Accepted? || r.disposition.HistoryOnly?)
            && (r.suppressCommand <==>
                (r.disposition.Accepted?
                 ==> input.envelope.value.receivedAt.Sub(event.value.eventTime) > input.interval))
            && !r.disposition.Duplicate?
  {
  }

  /** Health stays durable: the status is known, the transition time is a non-zero UTC time that
      only a change of status moves, and the last contact is in UTC. */
  lemma ClassifiedHealthIsDurable(input: ClassifyInput)
    requires Classify(input).Classified?
    requires ReceivedAtOrNow(input.envelope, input.now).Durable()
    requires input.priorHealth == ZERO_HEALTH || DurableHealth(input.priorHealth)
    ensures var at := ReceivedAtOrNow(input.envelope, input.now);
            var health := Classify(input).result.health;
            && DurableHealth(health)
            && health.transitionTime ==
               (if health.status == input.priorHealth.status then input.priorHealth.transitionTime else at)
  {
  }

  /** The transition time moves only with the status, and then to the time of evaluation. */
  lemma ClassifiedTransition(input: ClassifyInput)
    requires Classify(input).Classified?
    ensures var prior := input.priorHealth;
            var health := Classify(input).result.health;
            health.transitionTime ==
            if health.status == prior.status && !prior.transitionTime.IsZero() then prior.transitionTime
            else ReceivedAtOrNow(input.envelope, input.now)
  {
  }

  /** How an observation is disposed of, from the observation and the time of the latest state alone. */
  lemma DispositionLaw(input: ClassifyInput)
    requires Classify(input).Classified?
    ensures var d := Classify(input).result.disposition;
            var event := EventOf(input.envelope);
            var known := input.priorState.updatedAt.ns;
            && (d.Missing? <==> input.envelope.None?)
            && (d.Unavailable? <==>
                  input.envelope.Some? && EnvelopeError(input.envelope.value).None? && !input.envelope.value.available)
            && (d.Accepted? <==> event.Some? && (known == 0 || event.value.eventTime.ns > known))
            && (d.HistoryOnly? <==> event.Some? && known != 0 && event.value.eventTime.ns <= known)
            && (d.Rejected? <==> event.None? && !d.Missing? && !d.Unavailable?)
  {
  }

  /** The reason that goes with a disposition; a rejection names what was found wrong first: with the envelope,
      with the reading, with the device it names, or with its time. */
  lemma DispositionReason(input: ClassifyInput)
    requires Classify(input).Classified?
    ensures var r := Classify(input).result;
            match r.disposition
            case Accepted => r.reason == NoReason
            case HistoryOnly => r.reason == NotNewerThanState
            case Missing => r.reason == NoObservation
            case Unavailable => r.reason == SourceUnavailable
            case Duplicate => false
            case Rejected =>
              var e := input.envelope.value;
              if EnvelopeError(e).Some? then Some(r.reason) == EnvelopeError(e)
              else if ValidateRaw(e.telemetry.value).Err? then Err(r.reason) == ValidateRaw(e.telemetry.value)
              else
                var event := ValidateRaw(e.telemetry.value).value;
                if event.deviceID != e.sourceDeviceID then r.reason == DeviceMismatch
                else r.reason == EventAfterReceive && event.eventTime.ns > e.receivedAt.ns
  {
  }

  /** What the device health becomes. An accepted event is `stale` when it comes more than an interval late and
      `online` otherwise; a rejection is `invalid` for its own reason; an unavailable source is `offline`. An old
      event or silence is judged by the age of the last contact, then by a standing invalidity, then by the
      age of the latest state. Only an event that arrives, good or bad, is a contact. */
  lemma HealthLaw(input: ClassifyInput)
    requires Classify(input).Classified?
    ensures var r := Classify(input).result;
            var e := input.envelope;
            var at := if e.Some? && e.value.receivedAt.ns != 0 && e.value.receivedAt.utc then e.value.receivedAt
                      else input.now;
            var contact := if r.disposition.Missing? || r.disposition.Unavailable? then input.priorHealth.lastContactAt
                           else at;
            var judged := (r.health.status, r.health.reason);
            && r.health.lastContactAt == contact
            && match r.disposition
               case Accepted =>
                 judged == if at.Sub(r.telemetry.value.eventTime) > input.interval then (Stale, ArrivedLate)
                           else (Online, NoReason)
               case Rejected => judged == (Invalid, r.reason)
               case Unavailable => judged == (Offline, SourceUnavailable)
               case _ =>
                 judged ==
                 if contact.ns != 0 && at.Sub(contact) >= input.policy.offlineAfter then (Offline, NoContact)
                 else if input.priorHealth.status.Invalid? then (Invalid, input.priorHealth.reason)
                 else if input.priorState.updatedAt.ns != 0
                         && at.Sub(input.priorState.updatedAt) >= input.policy.staleAfter then
                   (Stale, LatestEventTooOld)
                 else (Online, NoReason)
  {
    ClassifiedContents(input);
  }

  predicate DurableHealth(health: DeviceHealth) {
    && !health.status.NoStatus?
    && health.transitionTime.Durable()
    && health.lastContactAt.utc
  }

  predicate Live(status: HealthStatus) {
    status.Online? || status.Stale?
  }

  /** The documented rule is that only a valid newer event brings a device back from `offline` or
      `invalid`. The code departs from it exactly when an `offline` device sends a history-only event
      or nothing at all while its last contact does not count as lost: the recorded contact
      decides, not the status. */
  lemma RestoredWithoutNewerEvent(input: ClassifyInput)
    requires Classify(input).Classified?
    requires input.priorHealth.status.Offline? || input.priorHealth.status.Invalid?
    ensures var r := Classify(input).result;
            var contact := if r.disposition.HistoryOnly? then input.envelope.value.receivedAt
                           else input.priorHealth.lastContactAt;
            var at := ReceivedAtOrNow(input.envelope, input.now);
            Live(r.health.status) && !r.disposition.Accepted? <==>
            && input.priorHealth.status.Offline?
            && (input.envelope.None? || (EventOf(input.envelope).Some?
                                       && !Supersedes(EventOf(input.envelope).value, input.priorState)))
            && !ContactLost(input.policy, at, contact)
  {
  }
}
