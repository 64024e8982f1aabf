/** When a run stops, and what two writers would break. */
module Progress {
  import opened Basics
  import opened Observations
  import opened LatestState
  import opened Health
  import opened ControlPolicy
  import opened Classifier
  import opened Contracts
  import opened Storage
  import opened Integrity
  import opened Runtime
  import opened Safety

  /** Steps on which nothing outside the program goes wrong and the clock keeps its contract. */
  predicate Undisturbed(script: seq<Step>) {
    forall i :: 0 <= i < |script| ==> script[i].fate.Completes? && script[i].now.Durable()
  }

  /** From memory that refines storage, an undisturbed interval ends the run exactly when its
      observation is foreign; then nothing has changed. */
  lemma IntervalContinues(agent: Agent, hp: HealthPolicy, memory: Memory, db: Database, step: Step)
    requires agent.policy.Valid() && !Blank(agent.deviceID)
    requires Intact(db) && Refines(memory, db, agent.deviceID)
    requires step.fate.Completes? && step.now.Durable()
    ensures var e := Interval(agent, hp, memory, db, step);
            && (e.ending.Running? <==> !Foreign(agent.deviceID, step.envelope))
            && (e.ending.Running? <==> |e.records| == 1)
            && (e.ending.Running? <==> e.applies == 1)
            && (!e.ending.Running? ==> e == NoEffect(memory, db, e.ending))
  {
    assert FailureOf(step.fate) == NoFailure;
    hide *;
    RestoredState(memory, db, agent.deviceID);
    ProposalValidity(agent, hp, memory, step.envelope, step.now);
    ProcessedIffValid(agent, hp, memory, db, step.envelope, step.now);
    IntervalCases(agent, hp, memory, db, step);
    CompletedDelivery(agent, db, Process(agent, hp, memory, db, step.envelope, step.now, FailureOf(step.fate)), step);
  }

  lemma RestoredState(memory: Memory, db: Database, deviceID: string)
    requires Intact(db) && Refines(memory, db, deviceID)
    ensures memory.health == ZERO_HEALTH || DurableHealth(memory.health)
    ensures memory.state == ZERO_STATE || (memory.state.deviceID == deviceID && !memory.state.updatedAt.IsZero())
  {
    RestoredShape(db, deviceID);
  }

  lemma ProcessedIffValid(
    agent: Agent, hp: HealthPolicy, memory: Memory, db: Database, envelope: Option<Envelope>, now: Time)
    requires agent.policy.Valid() && Intact(db)
    ensures var p := Process(agent, hp, memory, db, envelope, now, NoFailure);
            var classification := Classify(Input(memory, hp, agent.policy.interval, envelope, now));
            && (p.processed.Committed?
                <==> classification.Classified? && Proposal(agent, classification.result, envelope, now).Valid())
            && (p.processed.Unprocessed? ==> p.db == db && p.memory == memory && !p.processed.ending.Running?)
  {
    hide Proposal, Intact;
    var classification := Classify(Input(memory, hp, agent.policy.interval, envelope, now));
    if classification.Classified? {
      CommitOnlyFailsForCause(db, Proposal(agent, classification.result, envelope, now), NoFailure);
    }
    hide Classify;
  }

  lemma CompletedDelivery(agent: Agent, db: Database, p: Processing, step: Step)
    requires step.fate.Completes?
    requires p.processed.Unprocessed? ==> !p.processed.ending.Running?
    ensures var e := Delivered(agent, db, p, step);
            && (e.ending.Running? <==> p.processed.Committed?)
            && (p.processed.Committed? ==> |e.records| == 1 && e.applies == 1)
            && (p.processed.Unprocessed? ==>
                  e == NoEffect(p.memory, p.db, p.processed.ending) && e.records == [] && e.applies == 0
                  && e.ending == p.processed.ending)
  {
  }

  /** No observation of the agent's own device stops the run: an undisturbed loop goes through its
      whole script, one sink call and one record an interval, if and only if no observation is
      foreign. */
  lemma {:induction false} NoObservationStopsTheLoop(
    agent: Agent, hp: HealthPolicy, memory: Memory, db: Database, script: seq<Step>)
    requires agent.policy.Valid() && !Blank(agent.deviceID)
    requires Intact(db) && Refines(memory, db, agent.deviceID)
    requires Undisturbed(script)
    ensures var e := Loop(agent, hp, memory, db, script);
            && (e.ending.Running?
                <==> forall i :: 0 <= i < |script| ==> !Foreign(agent.deviceID, script[i].envelope))
            && (e.ending.Running? ==> |e.records| == |script| && e.applies == |script|)
    decreases |script|
  {
    hide *;
    if script == [] {
      LoopStops(agent, hp, memory, db);
    } else {
      var first := Interval(agent, hp, memory, db, script[0]);
      UndisturbedTail(script);
      OwnTail(agent.deviceID, script);
      LoopGoesOn(agent, hp, memory, db, script);
      IntervalContinues(agent, hp, memory, db, script[0]);
      if first.ending.Running? {
        IntervalStaysSafe(agent, hp, memory, db, script[0]);
        NoObservationStopsTheLoop(agent, hp, first.memory, first.db, script[1..]);
      }
    }
  }

  lemma UndisturbedTail(script: seq<Step>)
    requires script != [] && Undisturbed(script)
    ensures script[0].fate.Completes? && script[0].now.Durable() && Undisturbed(script[1..])
  {
  }

  lemma OwnTail(deviceID: string, script: seq<Step>)
    requires script != []
    ensures (forall i :: 0 <= i < |script| ==> !Foreign(deviceID, script[i].envelope)) <==>
            (!Foreign(deviceID, script[0].envelope)
             && forall i :: 0 <= i < |script[1..]| ==> !Foreign(deviceID, script[1..][i].envelope))
  {
    hide Foreign;
    if forall i :: 0 <= i < |script[1..]| ==> !Foreign(deviceID, script[1..][i].envelope) {
      forall i | 1 <= i < |script| ensures !Foreign(deviceID, script[i].envelope) {
        assert script[1..][i - 1] == script[i];
      }
    }
  }

  /** A whole run, from any intact database: it fails before the first interval exactly for a blank
      device ID, an interval whose thresholds overflow or a snapshot that cannot be read, and otherwise
      goes on, or finishes its configured number of intervals, exactly when no observation it takes is
      foreign. */
  lemma NoObservationStopsTheRun(agent: Agent, db: Database, script: seq<Step>, snapshotFails: bool)
    requires agent.policy.Valid() && Intact(db) && Undisturbed(script)
    requires agent.policy.interval <= MAX_INT64
    ensures var e := Run(agent, db, script, snapshotFails);
            var taken := Bounded(agent, script);
            (e.ending.Running? || e.ending.Finished?) <==>
            && !Blank(agent.deviceID)
            && !snapshotFails
            && 3 * agent.policy.interval <= MAX_INT64
            && forall i :: 0 <= i < |taken| ==> !Foreign(agent.deviceID, taken[i].envelope)
  {
    DefaultHealthPolicy(agent.policy.interval);
    var hp := NewHealthPolicy(agent.policy.interval, 0, 0);
    if !Blank(agent.deviceID) && hp.Ok? {
      NoObservationStopsTheLoop(agent, hp.value, RestoredMemory(db, agent.deviceID), db, Bounded(agent, script));
      LoopNeverFinishes(agent, hp.value, RestoredMemory(db, agent.deviceID), db, Bounded(agent, script));
    }
    hide Loop, NewHealthPolicy, Foreign, SnapshotOf, Blank, Intact;
  }

  lemma {:induction false} LoopNeverFinishes(
    agent: Agent, hp: HealthPolicy, memory: Memory, db: Database, script: seq<Step>)
    requires agent.policy.Valid()
    ensures !Loop(agent, hp, memory, db, script).ending.Finished?
    decreases |script|
  {
    if script != [] {
      var first := Interval(agent, hp, memory, db, script[0]);
      if first.ending.Running? {
        LoopNeverFinishes(agent, hp, first.memory, first.db, script[1..]);
      }
    }
  }

  // ---------------------------------------------------------------------------------------------
  // Undisturbed intervals with an event

  /** The fates under which the command of a new event gets to the sink and is taken there: nothing goes
      wrong before or at the sink, whatever happens to the record. A failing roll-back is one of them,
      because a new event is not rolled back. */
  predicate ReachesSink(fate: Fate) {
    || fate.Completes?
    || fate.WriteFails?
    || fate.CrashAfterApply?
    || (fate.StorageFails? && (fate.failure.NoFailure? || fate.failure.RollbackFails?))
  }

  /** An event of the agent's own that storage does not know is processed at any clock reading: it brings
      its own durable receive time. */
  lemma NewEventIsProcessed(
    agent: Agent, hp: HealthPolicy, memory: Memory, db: Database, envelope: Option<Envelope>, now: Time,
    failure: Failure)
    requires agent.policy.Valid() && !Blank(agent.deviceID) && Intact(db) && Refines(memory, db, agent.deviceID)
    requires failure.NoFailure? || failure.RollbackFails?
    requires EventOf(envelope).Some? && !Foreign(agent.deviceID, envelope)
    requires EventOf(envelope).value.eventID !in db.telemetry
    ensures var p := Process(agent, hp, memory, db, envelope, now, failure);
            p.processed.Committed? && p.processed.status.CommitStored?
  {
    var input := Input(memory, hp, agent.policy.interval, envelope, now);
    RestoredState(memory, db, agent.deviceID);
    EventIsDurable(envelope, now);
    ProposalValidity(agent, hp, memory, envelope, now);
    ProcessUnfolds(agent, hp, memory, db, envelope, now, failure);
    ProposalShape(agent, input);
    CommitOnlyFailsForCause(db, Proposal(agent, Classify(input).result, envelope, now), failure);
    hide Classify, Process, Proposal, EventOf, Foreign, Intact, RestoredMemory, ResultError, Blank, Written,
      CommandConflicts, Supersedes, Policy.Decide;
  }

  lemma EventIsDurable(envelope: Option<Envelope>, now: Time)
    requires EventOf(envelope).Some?
    ensures ReceivedAtOrNow(envelope, now).Durable()
  {
  }

  /** A new event's command only comes out of a commit that no failure strikes. */
  lemma StruckIsUnprocessed(
    agent: Agent, hp: HealthPolicy, memory: Memory, db: Database, envelope: Option<Envelope>, now: Time,
    failure: Failure)
    requires agent.policy.Valid() && Intact(db) && Refines(memory, db, agent.deviceID)
    ensures var p := Process(agent, hp, memory, db, envelope, now, failure);
            p.processed.Committed? && p.processed.outcome.command.Some? ==> failure.NoFailure? || failure.RollbackFails?
  {
    var input := Input(memory, hp, agent.policy.interval, envelope, now);
    ProcessUnfolds(agent, hp, memory, db, envelope, now, failure);
    if Classify(input).Classified? {
      var r := Proposal(agent, Classify(input).result, envelope, now);
      ProposalShape(agent, input);
      CommandOfDecision(agent, Classify(input).result, envelope, now);
      CommitMeans(db, r, failure);
      CommitOnlyFailsForCause(db, r, failure);
      ValidIffWellShaped(r);
      GuardNeverFires(agent, hp, memory, db, envelope, now);
    }
    hide Classify, Process, Proposal, EventOf, Intact, RestoredMemory, Written, CommandConflicts, Supersedes,
      Policy.Decide, WellShaped, DecidedCommand, Commit, NewerThanRow, ResultError, KnownEvent, Blank;
  }

  lemma CommandOfDecision(agent: Agent, c: ClassifyResult, envelope: Option<Envelope>, now: Time)
    requires agent.policy.Valid()
    ensures DecidedCommand(agent.policy, c).Some? ==> c.state.Some? && !c.suppressCommand
    ensures forall status, health ::
              var o := Settled(c, DecidedCommand(agent.policy, c), status, health);
              o.command.Some? ==> status.CommitStored? && DecidedCommand(agent.policy, c).Some?
  {
  }

  /** A command in the hands of a willing sink means that the fate let it through. */
  lemma SentMeansReached(agent: Agent, hp: HealthPolicy, memory: Memory, db: Database, step: Step)
    requires agent.policy.Valid() && Intact(db) && Refines(memory, db, agent.deviceID)
    ensures Interval(agent, hp, memory, db, step).sent != [] ==> ReachesSink(step.fate) || step.fate.SinkFails?
  {
    var p := Process(agent, hp, memory, db, step.envelope, step.now, FailureOf(step.fate));
    IntervalCases(agent, hp, memory, db, step);
    StruckIsUnprocessed(agent, hp, memory, db, step.envelope, step.now, FailureOf(step.fate));
    hide Interval, Process, Intact, Refines, BuildRecord, RecordedBy;
  }

  /** An interval that gets as far as the sink with an event storage does not know and that is newer than
      the state. */
  lemma NewEventInterval(agent: Agent, hp: HealthPolicy, memory: Memory, db: Database, step: Step)
    requires agent.policy.Valid() && !Blank(agent.deviceID) && Intact(db) && Refines(memory, db, agent.deviceID)
    requires ReachesSink(step.fate)
    requires EventOf(step.envelope).Some? && !Foreign(agent.deviceID, step.envelope)
    requires EventOf(step.envelope).value.eventID !in db.telemetry
    requires Supersedes(EventOf(step.envelope).value, memory.state)
    ensures var e := Interval(agent, hp, memory, db, step);
            var event := EventOf(step.envelope).value;
            && e.applies == 1
            && (e.ending.Running? <==> step.fate.Completes? || step.fate.StorageFails?)
            && e.db.telemetry.Keys == db.telemetry.Keys + {event.eventID}
            && e.memory.state == StateOf(event)
            && e.sent ==
               if Late(agent, step.envelope) then []
               else [Dispatch(event.eventID, agent.policy.Decide(StateOf(event)))]
  {
    var p := Process(agent, hp, memory, db, step.envelope, step.now, FailureOf(step.fate));
    hide *;
    ReachingFailure(step.fate);
    NewEventIsProcessed(agent, hp, memory, db, step.envelope, step.now, FailureOf(step.fate));
    IntervalStaysSafe(agent, hp, memory, db, step);
    IntervalCases(agent, hp, memory, db, step);
    ProcessMeaning(agent, hp, memory, db, step.envelope, step.now, FailureOf(step.fate));
    NewEventDelivery(agent, memory, db, p, step);
  }

  lemma ReachingFailure(fate: Fate)
    requires ReachesSink(fate)
    ensures FailureOf(fate).NoFailure? || FailureOf(fate).RollbackFails?
    ensures fate.Completes? || ProcessesDespite(fate)
  {
  }

  lemma NewEventDelivery(agent: Agent, memory: Memory, db: Database, p: Processing, step: Step)
    requires agent.policy.Valid() && ReachesSink(step.fate)
    requires p.processed.Committed? && p.processed.status.CommitStored?
    requires EventOf(step.envelope).Some? && Supersedes(EventOf(step.envelope).value, memory.state)
    requires p.processed.outcome.telemetry == EventOf(step.envelope)
    requires StoresObservation(agent, memory.state, db, step.envelope, step.now, p.db, p.processed.outcome)
    requires Intact(p.db) && Refines(p.memory, p.db, agent.deviceID)
    ensures var e := Delivered(agent, db, p, step);
            var event := EventOf(step.envelope).value;
            && e.applies == 1
            && (e.ending.Running? <==> step.fate.Completes? || step.fate.StorageFails?)
            && e.db.telemetry.Keys == db.telemetry.Keys + {event.eventID}
            && e.memory.state == StateOf(event)
            && e.sent ==
               if Late(agent, step.envelope) then []
               else [Dispatch(event.eventID, agent.policy.Decide(StateOf(event)))]
  {
    RestoredShape(p.db, agent.deviceID);
    hide EventOf, Late, Intact, RestoredMemory, BuildRecord, RecordedBy, Policy.Decide;
  }

  // ---------------------------------------------------------------------------------------------
  // Why a single writer is needed

  /** With any memory at all, on an intact database: the command an interval delivers has its row
      exactly when the event is newer than the stored one. Otherwise the guard in storage drops the
      row, still answers that the observation is stored, and the command is applied regardless. */
  lemma AppliedButNotRecorded(
    agent: Agent, hp: HealthPolicy, memory: Memory, db: Database, envelope: Option<Envelope>, now: Time)
    requires agent.policy.Valid() && Intact(db)
    ensures var p := Process(agent, hp, memory, db, envelope, now, NoFailure);
            p.processed.Committed? && p.processed.outcome.command.Some? ==>
              && EventOf(envelope).Some?
              && (EventOf(envelope).value.eventID in p.db.commands
                  <==> NewerThanRow(db, StateOf(EventOf(envelope).value)))
              && (RecordedBy(db, p.db, p.processed.outcome) == DispatchOf(p.processed.outcome)
                  <==> NewerThanRow(db, StateOf(EventOf(envelope).value)))
  {
    var input := Input(memory, hp, agent.policy.interval, envelope, now);
    if Classify(input).Classified? {
      var c := Classify(input).result;
      var r := Proposal(agent, c, envelope, now);
      ProposalShape(agent, input);
      ValidIffWellShaped(r);
      CommitOnlyFailsForCause(db, r, NoFailure);
    }
  }

  /** Two writers on one device: an agent whose memory is older than the stored row accepts an event
      between the two, is told that it is stored, and runs a command that has no row. */
  lemma SecondWriterLosesTheRow(
    agent: Agent, hp: HealthPolicy, earlier: Database, db: Database, envelope: Option<Envelope>, now: Time)
    requires agent.policy.Valid() && !Blank(agent.deviceID) && Intact(earlier) && Intact(db)
    requires EventOf(envelope).Some? && !Foreign(agent.deviceID, envelope) && !Late(agent, envelope)
    requires EventOf(envelope).value.eventID !in db.telemetry
    requires Supersedes(EventOf(envelope).value, RestoredMemory(earlier, agent.deviceID).state)
    requires !NewerThanRow(db, StateOf(EventOf(envelope).value))
    ensures var p := Process(agent, hp, RestoredMemory(earlier, agent.deviceID), db, envelope, now, NoFailure);
            && p.processed.Committed?
            && p.processed.status.CommitStored?
            && p.processed.outcome.telemetry == EventOf(envelope)
            && p.processed.outcome.command.Some?
            && EventOf(envelope).value.eventID !in p.db.commands
  {
    var memory := RestoredMemory(earlier, agent.deviceID);
    var input := Input(memory, hp, agent.policy.interval, envelope, now);
    hide *;
    InputParts(agent, hp, memory, envelope, now);
    RestoredState(memory, earlier, agent.deviceID);
    EventIsDurable(envelope, now);
    ProposalValidity(agent, hp, memory, envelope, now);
    ProcessedIffValid(agent, hp, memory, db, envelope, now);
    ProcessUnfolds(agent, hp, memory, db, envelope, now, NoFailure);
    AppliedButNotRecorded(agent, hp, memory, db, envelope, now);
    ClassifiedContents(input);
    NewEventIsStored(agent, input, db);
    LateMeans(agent, input);
    OnTimeCommand(agent, Classify(input).result, memory.health);
  }

  lemma InputParts(agent: Agent, hp: HealthPolicy, memory: Memory, envelope: Option<Envelope>, now: Time)
    ensures var input := Input(memory, hp, agent.policy.interval, envelope, now);
            && input.envelope == envelope && input.now == now && input.priorState == memory.state
            && input.interval == agent.policy.interval
  {
  }

  lemma LateMeans(agent: Agent, input: ClassifyInput)
    requires EventOf(input.envelope).Some? && input.interval == agent.policy.interval
    ensures Late(agent, input.envelope) <==>
            input.envelope.value.receivedAt.Sub(EventOf(input.envelope).value.eventTime) > input.interval
  {
    hide EventOf;
  }

  lemma OnTimeCommand(agent: Agent, c: ClassifyResult, prior: DeviceHealth)
    requires agent.policy.Valid()
    requires c.state.Some? && c.disposition.Accepted? && !c.suppressCommand
    ensures var o := Settled(c, DecidedCommand(agent.policy, c), CommitStored, prior);
            o.command.Some? && o.telemetry == c.telemetry
  {
  }

  lemma NewEventIsStored(agent: Agent, input: ClassifyInput, db: Database)
    requires agent.policy.Valid() && Classify(input).Classified?
    requires EventOf(input.envelope).Some? && EventOf(input.envelope).value.eventID !in db.telemetry
    ensures var r := Proposal(agent, Classify(input).result, input.envelope, input.now);
            !KnownEvent(db, r) && Commit(db, r, NoFailure).status != Ok(CommitDuplicate)
  {
    ProposalShape(agent, input);
    hide Classify, Proposal, EventOf, ResultError, CommandConflicts;
  }

  function Reading(deviceID: string, eventID: string, at: Time): Option<Envelope> {
    Some(Envelope(
      deviceID, Time(2, true),
      Some(RawTelemetry(
        eventID, at, deviceID, Some(Finite(1.0)), Some(Finite(1.0)), Some(Finite(50.0)), Some(Finite(0.30)))),
      true))
  }

  lemma ReadingIsOwn(agent: Agent, eventID: string, at: Time)
    requires agent.policy.Valid() && !Blank(agent.deviceID)
    requires !Blank(eventID) && !Padded(eventID) && at.Durable() && 1 <= at.ns <= 2
    ensures var envelope := Reading(agent.deviceID, eventID, at);
            && EventOf(envelope).Some?
            && EventOf(envelope).value.eventID == eventID
            && EventOf(envelope).value.eventTime == at
            && EventOf(envelope).value.deviceID == agent.deviceID
            && !Foreign(agent.deviceID, envelope)
            && !Late(agent, envelope)
  {
  }

  /** The same on a concrete pair of runs, for every agent: two instances start on the empty database, one
      stores the later of two readings, then the other the earlier one. The second instance goes on as if
      nothing had happened and sends a command that storage does not have. */
  lemma TwoInstancesOnOneDevice(agent: Agent, hp: HealthPolicy)
    requires agent.policy.Valid() && !Blank(agent.deviceID)
    ensures var memory := RestoredMemory(EMPTY_DATABASE, agent.deviceID);
            var now := Time(2, true);
            var first := Interval(agent, hp, memory, EMPTY_DATABASE,
                                  Step(Reading(agent.deviceID, "later", Time(2, true)), now, Completes));
            var second := Interval(agent, hp, memory, first.db,
                                   Step(Reading(agent.deviceID, "earlier", Time(1, true)), now, Completes));
            && first.ending.Running? && Intact(first.db)
            && second.ending.Running?
            && |second.sent| == 1
            && second.sent[0].eventID == "earlier"
            && "earlier" !in second.db.commands
  {
    hide *;
    var memory := RestoredMemory(EMPTY_DATABASE, agent.deviceID);
    var one := Step(Reading(agent.deviceID, "later", Time(2, true)), Time(2, true), Completes);
    var two := Step(Reading(agent.deviceID, "earlier", Time(1, true)), Time(2, true), Completes);
    ReadingsAreOwn(agent);
    EmptyStart(agent.deviceID);
    NewEventInterval(agent, hp, memory, EMPTY_DATABASE, one);
    IntervalStaysSafe(agent, hp, memory, EMPTY_DATABASE, one);
    var first := Interval(agent, hp, memory, EMPTY_DATABASE, one);
    OlderThanRow(agent.deviceID, first, EventOf(one.envelope).value, EventOf(two.envelope).value);
    SecondWriterLosesTheRow(agent, hp, EMPTY_DATABASE, first.db, two.envelope, two.now);
    IntervalCases(agent, hp, memory, first.db, two);
    CompletedCommand(agent, first.db, Process(agent, hp, memory, first.db, two.envelope, two.now, NoFailure), two);
  }

  lemma ReadingsAreOwn(agent: Agent)
    requires agent.policy.Valid() && !Blank(agent.deviceID)
    ensures forall eventID, at | (eventID == "later" || eventID == "earlier") && (at == 1 || at == 2) ::
              var envelope := Reading(agent.deviceID, eventID, Time(at, true));
              && EventOf(envelope).Some?
              && EventOf(envelope).value.eventID == eventID
              && EventOf(envelope).value.eventTime == Time(at, true)
              && EventOf(envelope).value.deviceID == agent.deviceID
              && !Foreign(agent.deviceID, envelope)
              && !Late(agent, envelope)
    ensures "later" != "earlier" && Time(2, true).Durable() && ReachesSink(Completes)
    ensures FailureOf(Completes) == NoFailure
  {
    assert "later"[0] == 'l' && "later"[4] == 'r' && "earlier"[0] == 'e' && "earlier"[6] == 'r';
    forall eventID, at | (eventID == "later" || eventID == "earlier") && (at == 1 || at == 2)
      ensures var envelope := Reading(agent.deviceID, eventID, Time(at, true));
              && EventOf(envelope).Some?
              && EventOf(envelope).value.eventID == eventID
              && EventOf(envelope).value.eventTime == Time(at, true)
              && EventOf(envelope).value.deviceID == agent.deviceID
              && !Foreign(agent.deviceID, envelope)
              && !Late(agent, envelope)
    {
      ReadingIsOwn(agent, eventID, Time(at, true));
    }
    hide Reading, EventOf, Foreign, Late;
  }

  lemma EmptyStart(deviceID: string)
    ensures var memory := RestoredMemory(EMPTY_DATABASE, deviceID);
            Refines(memory, EMPTY_DATABASE, deviceID) && forall event :: Supersedes(event, memory.state)
    ensures Intact(EMPTY_DATABASE) && EMPTY_DATABASE.telemetry.Keys == {}
  {
  }

  lemma OlderThanRow(deviceID: string, e: Effect, stored: Telemetry, event: Telemetry)
    requires Intact(e.db) && Refines(e.memory, e.db, deviceID)
    requires e.memory.state == StateOf(stored) && stored.Valid()
    requires event.eventTime.ns < stored.eventTime.ns && event.deviceID == deviceID
    ensures !NewerThanRow(e.db, StateOf(event))
  {
    RestoredShape(e.db, deviceID);
    hide Intact, RestoredMemory;
  }

  lemma CompletedCommand(agent: Agent, db: Database, p: Processing, step: Step)
    requires step.fate.Completes?
    requires p.processed.Committed? && p.processed.outcome.command.Some? && p.processed.outcome.telemetry.Some?
    ensures var e := Delivered(agent, db, p, step);
            && e.ending.Running?
            && e.db == p.db
            && e.sent == [Dispatch(p.processed.outcome.telemetry.value.eventID, p.processed.outcome.command.value)]
  {
  }
}
