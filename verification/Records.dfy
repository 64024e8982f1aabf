/** What a written record says: of the observation it is about, and of the rules that judged it, on every run,
    whatever storage held and whatever fails. */
module Records {
  import opened Basics
  import opened Observations
  import opened LatestState
  import opened Health
  import opened ControlPolicy
  import opened Classifier
  import opened Contracts
  import opened Storage
  import opened Runtime
  import opened Safety

  /** The disposition, its reason, the command and the health of a record belong together. An accepted event
      is commanded and `online`, or more than an interval late, not commanded and `stale`; a rejection is
      `invalid` for the reason it was rejected for; an unavailable source is `offline`. */
  predicate Explained(agent: Agent, r: Record)
    requires agent.policy.Valid()
  {
    var judged := (r.healthStatus, r.healthReason);
    && r.agentID == agent.id
    && r.deviceID == agent.deviceID
    && (r.telemetry.Some? <==> r.disposition.Accepted? || r.disposition.HistoryOnly? || r.disposition.Duplicate?)
    && (!r.disposition.Accepted? ==> r.command.None?)
    && match r.disposition
       case Accepted =>
         && r.dispositionReason == NoReason
         && if r.receivedAt.Sub(r.telemetry.value.eventTime) > agent.policy.interval then
              r.command.None? && judged == (Stale, ArrivedLate)
            else
              r.command == Some(agent.policy.Decide(StateOf(r.telemetry.value))) && judged == (Online, NoReason)
       case HistoryOnly => r.dispositionReason == NotNewerThanState
       case Duplicate => r.dispositionReason == AlreadyProcessed
       case Missing => r.dispositionReason == NoObservation
       case Unavailable => r.dispositionReason == SourceUnavailable && judged == (Offline, SourceUnavailable)
       case Rejected => judged == (Invalid, r.dispositionReason)
  }

  /** The record is about this observation. */
  predicate Describes(step: Step, r: Record) {
    var e := step.envelope;
    && r.receivedAt ==
       (if e.Some? && e.value.receivedAt.ns != 0 && e.value.receivedAt.utc then e.value.receivedAt else step.now)
    && r.telemetry == EventOf(e)
    && (r.disposition.Missing? <==> e.None?)
    && (r.disposition.Unavailable? <==> e.Some? && EnvelopeError(e.value).None? && !e.value.available)
    && (r.disposition.Rejected? ==>
          if EnvelopeError(e.value).Some? then Some(r.dispositionReason) == EnvelopeError(e.value)
          else if ValidateRaw(e.value.telemetry.value).Err? then
            Err(r.dispositionReason) == ValidateRaw(e.value.telemetry.value)
          else if ValidateRaw(e.value.telemetry.value).value.deviceID != e.value.sourceDeviceID then
            r.dispositionReason == DeviceMismatch
          else r.dispositionReason == EventAfterReceive)
  }

  lemma ClassifiedRecord(agent: Agent, input: ClassifyInput, step: Step, status: CommitStatus)
    requires agent.policy.Valid() && Classify(input).Classified?
    requires input.envelope == step.envelope && input.now == step.now && input.interval == agent.policy.interval
    requires status.CommitDuplicate? ==> EventOf(step.envelope).Some?
    ensures var c := Classify(input).result;
            var o := Settled(c, DecidedCommand(agent.policy, c), status, input.priorHealth);
            var r := BuildRecord(agent, ReceivedAtOrNow(step.envelope, step.now), o);
            Explained(agent, r) && Describes(step, r)
  {
    ClassifiedIsExplained(agent, input, step, status);
    ClassifiedContents(input);
    DispositionLaw(input);
    DispositionReason(input);
    hide Classify, ValidateRaw, Policy.Decide, EnvelopeError, Explained;
  }

  lemma ClassifiedIsExplained(agent: Agent, input: ClassifyInput, step: Step, status: CommitStatus)
    requires agent.policy.Valid() && Classify(input).Classified?
    requires input.envelope == step.envelope && input.now == step.now && input.interval == agent.policy.interval
    requires status.CommitDuplicate? ==> EventOf(step.envelope).Some?
    ensures var c := Classify(input).result;
            var o := Settled(c, DecidedCommand(agent.policy, c), status, input.priorHealth);
            Explained(agent, BuildRecord(agent, ReceivedAtOrNow(step.envelope, step.now), o))
  {
    ClassifiedContents(input);
    RuledReason(input);
    HealthLaw(input);
    hide Classify, ValidateRaw, Policy.Decide, EnvelopeError, EventOf;
  }

  lemma RuledReason(input: ClassifyInput)
    requires Classify(input).Classified?
    ensures var r := Classify(input).result;
            && (r.disposition.Accepted? ==> r.reason == NoReason)
            && (r.disposition.HistoryOnly? ==> r.reason == NotNewerThanState)
            && (r.disposition.Missing? ==> r.reason == NoObservation)
            && (r.disposition.Unavailable? ==> r.reason == SourceUnavailable)
            && (r.disposition.Accepted? ==>
                  && r.telemetry.Some?
                  && (r.suppressCommand <==>
                      ReceivedAtOrNow(input.envelope, input.now).Sub(r.telemetry.value.eventTime) > input.interval))
  {
    DispositionReason(input);
    ClassifiedContents(input);
    hide Classify;
  }

  /** A commit is answered "duplicate" exactly for an event that is already stored. */
  lemma DuplicateIsKnown(agent: Agent, input: ClassifyInput, db: Database, failure: Failure)
    requires agent.policy.Valid() && Classify(input).Classified?
    ensures var commit := Commit(db, Proposal(agent, Classify(input).result, input.envelope, input.now), failure);
            var event := EventOf(input.envelope);
            commit.status.Ok? ==>
              (commit.status.value.CommitDuplicate? <==> event.Some? && event.value.eventID in db.telemetry)
  {
    ClassifiedContents(input);
    hide Classify, EventOf, ResultError, DecidedCommand;
  }

  lemma IntervalExplains(agent: Agent, hp: HealthPolicy, memory: Memory, db: Database, step: Step)
    requires agent.policy.Valid()
    ensures var e := Interval(agent, hp, memory, db, step);
            && |e.records| <= 1
            && (e.ending.Running? <==> |e.records| == 1)
            && !e.ending.Finished?
            && (e.records != [] ==> Explained(agent, e.records[0]) && Describes(step, e.records[0]))
  {
    var input := Input(memory, hp, agent.policy.interval, step.envelope, step.now);
    var failure := FailureOf(step.fate);
    IntervalCases(agent, hp, memory, db, step);
    ProcessUnfolds(agent, hp, memory, db, step.envelope, step.now, failure);
    if Classify(input).Classified? {
      DuplicateIsKnown(agent, input, db, failure);
      var commit := Commit(db, Proposal(agent, Classify(input).result, step.envelope, step.now), failure);
      if commit.status.Ok? {
        ClassifiedRecord(agent, input, step, commit.status.value);
      }
    }
    hide Classify, Commit, Process, Proposal, DecidedCommand, EventOf, Explained, Describes, Settled, RecordedBy,
      BuildRecord, ReceivedAtOrNow;
  }

  /** The records of a loop are about its first observations, in their order, one each. */
  lemma {:induction false} LoopExplains(
    agent: Agent, hp: HealthPolicy, memory: Memory, db: Database, script: seq<Step>)
    requires agent.policy.Valid()
    ensures var e := Loop(agent, hp, memory, db, script);
            && |e.records| <= |script|
            && (e.ending.Running? ==> |e.records| == |script|)
            && !e.ending.Finished?
            && (forall i :: 0 <= i < |e.records| ==>
                  Explained(agent, e.records[i]) && Describes(script[i], e.records[i]))
    decreases |script|
  {
    hide *;
    if script == [] {
      LoopStops(agent, hp, memory, db);
    } else {
      var first := Interval(agent, hp, memory, db, script[0]);
      LoopGoesOn(agent, hp, memory, db, script);
      IntervalExplains(agent, hp, memory, db, script[0]);
      if first.ending.Running? {
        LoopExplains(agent, hp, first.memory, first.db, script[1..]);
      }
    }
  }

  /** The command of a record, in the measurements of its event: it charges the surplus unless the battery is full,
      and discharges a deficit, or part of it, above 20 percent when power costs at least 0.30. */
  predicate CommandFits(r: Record) {
    r.command.Some? ==>
      && r.telemetry.Some?
      && var event := r.telemetry.value;
         var c := r.command.value;
         && (c.decision == Charge <==> event.pvPowerKW > event.loadPowerKW && event.batterySOCPercent < 100.0)
         && (c.decision == Charge ==> c.powerKW == event.pvPowerKW - event.loadPowerKW)
         && (c.decision == Discharge <==>
               && event.loadPowerKW > event.pvPowerKW
               && event.batterySOCPercent > 20.0
               && event.priceEURPerKWh >= 0.30)
         && (c.decision == Discharge ==> 0.0 < c.powerKW <= event.loadPowerKW - event.pvPowerKW)
         && c.Valid()
  }

  lemma ExplainedFits(agent: Agent, r: Record)
    requires agent.policy.Valid() && Explained(agent, r)
    ensures CommandFits(r)
    ensures r.disposition.Accepted? ==>
              && (r.healthStatus == Online <==> r.command.Some?)
              && (r.healthStatus == Stale <==> r.command.None?)
  {
    if r.command.Some? {
      DecisionOnEvent(agent.policy, r.telemetry.value);
      DecidedCommandIsValid(agent.policy, StateOf(r.telemetry.value));
    }
    hide Policy.Decide, CommandError;
  }

  /** A bounded run takes as many intervals as its bound allows, from the first on. */
  lemma BoundedLaw(agent: Agent, script: seq<Step>)
    ensures Bounded(agent, script) <= script
    ensures |Bounded(agent, script)|
            == if 1 <= agent.maxIntervals <= |script| then agent.maxIntervals else |script|
  {
  }

  /** Whole runs, on any database: one record for each interval that goes on, and as many as the bound when the
      run finishes. */
  lemma RunExplains(agent: Agent, db: Database, script: seq<Step>, snapshotFails: bool := false)
    requires agent.policy.Valid()
    ensures var e := Run(agent, db, script, snapshotFails);
            var records := e.records;
            && |records| <= |script|
            && (agent.maxIntervals >= 1 ==> |records| <= agent.maxIntervals)
            && (e.ending.Finished? ==> |records| == agent.maxIntervals)
            && (e.ending.Running? ==> |records| == |script|)
            && (forall i :: 0 <= i < |records| ==>
                  && Explained(agent, records[i])
                  && Describes(script[i], records[i])
                  && CommandFits(records[i])
                  && (records[i].disposition.Accepted? ==>
                        && (records[i].healthStatus == Online <==> records[i].command.Some?)
                        && (records[i].healthStatus == Stale <==> records[i].command.None?)))
  {
    var heard := Bounded(agent, script);
    var records := Run(agent, db, script, snapshotFails).records;
    hide *;
    RunIsLoop(agent, db, script, snapshotFails);
    BoundedLaw(agent, script);
    if records != [] || !Run(agent, db, script, snapshotFails).ending.Failed? {
      LoopExplains(agent, NewHealthPolicy(agent.policy.interval, 0, 0).value, RestoredMemory(db, agent.deviceID), db,
                   heard);
    }
    forall i | 0 <= i < |records|
      ensures Explained(agent, records[i]) && Describes(script[i], records[i]) && CommandFits(records[i])
      ensures records[i].disposition.Accepted? ==>
                && (records[i].healthStatus == Online <==> records[i].command.Some?)
                && (records[i].healthStatus == Stale <==> records[i].command.None?)
    {
      assert heard[i] == script[i];
      ExplainedFits(agent, records[i]);
    }
  }

  lemma RunIsLoop(agent: Agent, db: Database, script: seq<Step>, snapshotFails: bool)
    requires agent.policy.Valid()
    ensures var e := Run(agent, db, script, snapshotFails);
            var hp := NewHealthPolicy(agent.policy.interval, 0, 0);
            if Blank(agent.deviceID) || hp.Err? || snapshotFails then e.records == [] && e.ending.Failed?
            else
              var loop := Loop(agent, hp.value, RestoredMemory(db, agent.deviceID), db, Bounded(agent, script));
              && e.records == loop.records
              && e.ending ==
                 if loop.ending.Running? && 1 <= agent.maxIntervals <= |script| then Finished else loop.ending
  {
    hide Loop, NewHealthPolicy, SnapshotOf, Blank, Bounded;
  }

  /** The command a record carries is the one that was sent. */
  lemma SentAsRecorded(agent: Agent, hp: HealthPolicy, memory: Memory, db: Database, step: Step)
    requires agent.policy.Valid()
    ensures var e := Interval(agent, hp, memory, db, step);
            e.ending.Running? ==>
              && |e.records| == 1
              && (e.sent != [] ==> e.records[0].command == Some(e.sent[0].command))
  {
    IntervalCases(agent, hp, memory, db, step);
    hide Process, Interval, RecordedBy, ReceivedAtOrNow;
  }
}
