/** What every run keeps, whatever is observed and whatever fails: the loop's memory is what storage
    would restore, no observation of the agent's own device stops the run, and a command reaches the
    battery only once, and only after it is durable. */
module Safety {
  import opened Basics
  import opened Observations
  import opened LatestState
  import opened Health
  import opened ControlPolicy
  import opened Classifier
  import opened Contracts
  import opened Storage
  import opened Integrity
  import opened Runtime

  /** The loop remembers exactly what a restart would read back. */
  predicate Refines(memory: Memory, db: Database, deviceID: string) {
    memory == RestoredMemory(db, deviceID)
  }

  /** An observation the agent cannot record: a well-formed event that names another device than the
      agent's, or whose event time is not in UTC. */
  predicate Foreign(deviceID: string, envelope: Option<Envelope>) {
    && EventOf(envelope).Some?
    && (EventOf(envelope).value.deviceID != deviceID || !EventOf(envelope).value.eventTime.utc)
  }

  // ---------------------------------------------------------------------------------------------
  // What the agent proposes to store

  lemma ProposalShape(agent: Agent, input: ClassifyInput)
    requires agent.policy.Valid()
    requires Classify(input).Classified?
    ensures var c := Classify(input).result;
            var r := Proposal(agent, c, input.envelope, input.now);
            var event := EventOf(input.envelope);
            && r.deviceID == agent.deviceID
            && r.health == c.health
            && (r.telemetry.Some? <==> event.Some?)
            && (r.telemetry.Some? ==>
                  && r.telemetry.value.event == event.value
                  && r.telemetry.value.receivedAt == ReceivedAtOrNow(input.envelope, input.now)
                  && r.telemetry.value.disposition == c.disposition)
            && r.latestState == c.state
            && (c.state.Some? <==> event.Some? && Supersedes(event.value, input.priorState))
            && (c.state.Some? ==> c.state.value == StateOf(event.value) && c.disposition.Accepted?)
            && (r.command.Some? <==> c.state.Some? && !c.suppressCommand)
            && (r.command.Some? ==>
                  && r.command.value.eventID == event.value.eventID
                  && r.command.value.command == agent.policy.Decide(StateOf(event.value))
                  && r.command.value.createdAt == ReceivedAtOrNow(input.envelope, input.now))
            && (event.Some? ==> c.disposition.Accepted? || c.disposition.HistoryOnly?)
  {
    ClassifiedContents(input);
  }

  /** For a durable time of evaluation and a memory read back from storage, the classifier's panic and an
      invalid proposal both come from foreign observations and from nothing else. */
  lemma ProposalValidity(agent: Agent, hp: HealthPolicy, memory: Memory, envelope: Option<Envelope>, now: Time)
    requires agent.policy.Valid() && !Blank(agent.deviceID) && ReceivedAtOrNow(envelope, now).Durable()
    requires memory.health == ZERO_HEALTH || DurableHealth(memory.health)
    requires memory.state == ZERO_STATE || (memory.state.deviceID == agent.deviceID && !memory.state.updatedAt.IsZero())
    ensures var classification := Classify(Input(memory, hp, agent.policy.interval, envelope, now));
            (classification.Classified? && Proposal(agent, classification.result, envelope, now).Valid())
            <==> !Foreign(agent.deviceID, envelope)
  {
    var input := Input(memory, hp, agent.policy.interval, envelope, now);
    PanicsExactlyOnForeignDevice(input);
    if Classify(input).Classified? {
      var c := Classify(input).result;
      var r := Proposal(agent, c, envelope, now);
      ProposalShape(agent, input);
      ClassifiedHealthIsDurable(input);
      ValidIffWellShaped(r);
      if r.command.Some? {
        DecidedCommandIsValid(agent.policy, c.state.value);
      }
      ProposalWellShaped(agent, r, envelope, now, memory.state);
    }
  }

  lemma ProposalWellShaped(
    agent: Agent, r: ObservationResult, envelope: Option<Envelope>, now: Time, state: State)
    requires agent.policy.Valid() && ReceivedAtOrNow(envelope, now).Durable()
    requires r.deviceID == agent.deviceID && r.deviceID != "" && DurableHealth(r.health)
    requires r.telemetry.Some? <==> EventOf(envelope).Some?
    requires r.telemetry.Some? ==>
               && r.telemetry.value.event == EventOf(envelope).value
               && r.telemetry.value.receivedAt == ReceivedAtOrNow(envelope, now)
               && (r.telemetry.value.disposition.Accepted? || r.telemetry.value.disposition.HistoryOnly?)
    requires r.latestState.Some? ==>
               && EventOf(envelope).Some?
               && r.latestState.value == StateOf(EventOf(envelope).value)
               && r.telemetry.value.disposition.Accepted?
    requires r.command.Some? ==>
               && r.latestState.Some?
               && r.command.value.eventID == EventOf(envelope).value.eventID
               && r.command.value.command.Valid()
               && r.command.value.createdAt == ReceivedAtOrNow(envelope, now)
    ensures WellShaped(r) <==> !Foreign(agent.deviceID, envelope)
  {
    if EventOf(envelope).Some? {
      assert !EventOf(envelope).value.eventTime.IsZero();
    }
  }

  // ---------------------------------------------------------------------------------------------
  // What one processed observation does

  lemma RestoredShape(db: Database, deviceID: string)
    requires Intact(db)
    ensures var memory := RestoredMemory(db, deviceID);
            && (memory.health == ZERO_HEALTH || DurableHealth(memory.health))
            && (memory.state == ZERO_STATE <==> deviceID !in db.latest)
            && (deviceID in db.latest ==> memory.state == db.latest[deviceID])
            && (memory.state != ZERO_STATE ==> memory.state.deviceID == deviceID && !memory.state.updatedAt.IsZero())
            && (memory.health == ZERO_HEALTH <==> deviceID !in db.health)
            && (deviceID in db.health ==> memory.health == db.health[deviceID])
            && (memory.state == ZERO_STATE <==> memory.state.updatedAt.IsZero())
  {
    if deviceID in db.latest {
      assert db.latest[deviceID].updatedAt == db.telemetry[db.latest[deviceID].lastEventID].event.eventTime;
      assert !db.latest[deviceID].updatedAt.IsZero();
    }
  }

  predicate Late(agent: Agent, envelope: Option<Envelope>)
    requires EventOf(envelope).Some?
  {
    envelope.value.receivedAt.Sub(EventOf(envelope).value.eventTime) > agent.policy.interval
  }

  /** The tables after a new observation, spelled out from the event alone. */
  predicate StoresObservation(
    agent: Agent, state: State, db: Database, envelope: Option<Envelope>, now: Time, after: Database, o: Outcome)
    requires agent.policy.Valid()
  {
    var event := EventOf(envelope);
    && after.health == db.health[agent.deviceID := o.health]
    && o.storedHistory == event.Some?
    && o.stateUpdated == (event.Some? && Supersedes(event.value, state))
    && (event.None? ==>
          && after.telemetry == db.telemetry
          && after.latest == db.latest
          && after.commands == db.commands
          && o.command.None?
          && !o.disposition.Accepted?
          && !o.disposition.Duplicate?)
    && (event.Some? ==>
          var e := event.value;
          var at := ReceivedAtOrNow(envelope, now);
          && e.eventID !in db.telemetry
          && e.deviceID == agent.deviceID
          && after.telemetry == db.telemetry[e.eventID := TelemetryRecord(e, at, o.disposition, o.reason)]
          && o.disposition == (if Supersedes(e, state) then Accepted else HistoryOnly)
          && after.latest == (if Supersedes(e, state) then db.latest[agent.deviceID := StateOf(e)] else db.latest)
          && o.command ==
             (if Supersedes(e, state) && !Late(agent, envelope) then Some(agent.policy.Decide(StateOf(e))) else None)
          && after.commands ==
             (if o.command.Some? then db.commands[e.eventID := CommandRecord(e.eventID, o.command.value, at)]
              else db.commands))
  }

  /** Under a single writer — memory equal to storage — a processed observation either leaves
      everything alone (a failure, or a known event) or stores exactly the rows its event calls for;
      either way memory equals storage again. */
  lemma ProcessMeaning(
    agent: Agent, hp: HealthPolicy, memory: Memory, db: Database, envelope: Option<Envelope>, now: Time,
    failure: Failure)
    requires agent.policy.Valid() && Intact(db) && Refines(memory, db, agent.deviceID)
    ensures var p := Process(agent, hp, memory, db, envelope, now, failure);
            && Intact(p.db)
            && Refines(p.memory, p.db, agent.deviceID)
            && (p.processed.Unprocessed? ==> p.db == db && p.memory == memory)
            && (p.processed.Committed? ==>
                  && p.processed.outcome.telemetry == EventOf(envelope)
                  && (p.processed.status.CommitDuplicate?
                      <==> EventOf(envelope).Some? && EventOf(envelope).value.eventID in db.telemetry)
                  && (p.processed.status.CommitDuplicate? ==>
                        && p.db == db
                        && p.memory == memory
                        && p.processed.outcome ==
                           Outcome(Duplicate, AlreadyProcessed, EventOf(envelope), false, false, memory.health, None))
                  && (p.processed.status.CommitStored? ==>
                        && StoresObservation(agent, memory.state, db, envelope, now, p.db, p.processed.outcome)
                        && p.memory.health == p.processed.outcome.health))
  {
    var input := Input(memory, hp, agent.policy.interval, envelope, now);
    ProcessUnfolds(agent, hp, memory, db, envelope, now, failure);
    if Classify(input).Classified? {
      var c := Classify(input).result;
      var r := Proposal(agent, c, envelope, now);
      ProposalShape(agent, input);
      ClassifiedContents(input);
      CommitKeepsIntact(db, r, failure);
      CommitMeans(db, r, failure);
      if Commit(db, r, failure).status == Ok(CommitStored) {
        WrittenIsProposed(agent, memory, db, envelope, now, c, r);
      }
    }
    hide Classify, Commit, Process, Proposal, Intact, Written, EventOf, StoresObservation, Late, WellShaped,
      DecidedCommand, RestoredMemory, Supersedes, Policy.Decide;
  }

  lemma ProcessUnfolds(
    agent: Agent, hp: HealthPolicy, memory: Memory, db: Database, envelope: Option<Envelope>, now: Time,
    failure: Failure)
    requires agent.policy.Valid()
    ensures var input := Input(memory, hp, agent.policy.interval, envelope, now);
            var p := Process(agent, hp, memory, db, envelope, now, failure);
            && input.envelope == envelope && input.now == now && input.priorState == memory.state
            && input.interval == agent.policy.interval
            && (Classify(input).Panicked? ==> p == Processing(db, memory, Unprocessed(Crashed)))
            && (Classify(input).Classified? ==>
                  var c := Classify(input).result;
                  var commit := Commit(db, Proposal(agent, c, envelope, now), failure);
                  && (commit.status.Err? ==> p == Processing(commit.db, memory, Unprocessed(Failed)))
                  && (commit.status.Ok? ==>
                        p == Processing(
                               commit.db, Remembered(memory, c, commit.status.value),
                               Committed(commit.status.value,
                                         Settled(c, DecidedCommand(agent.policy, c), commit.status.value,
                                                 memory.health)))))
  {
    hide Classify, Commit, Proposal, DecidedCommand;
  }

  lemma CommitMeans(db: Database, r: ObservationResult, failure: Failure)
    requires Intact(db)
    ensures var outcome := Commit(db, r, failure);
            && (outcome.status != Ok(CommitStored) ==> outcome.db == db)
            && (outcome.status.Ok? ==> WellShaped(r) && (outcome.status.value.CommitDuplicate? <==> KnownEvent(db, r)))
            && (outcome.status == Ok(CommitStored) ==> outcome.db == Written(db, r))
  {
    ValidIffWellShaped(r);
    CommitOnlyFailsForCause(db, r, failure);
    hide Written, Strikes, ResultError, WellShaped, KnownEvent, CommandConflicts, Intact;
  }

  /** Under a single writer the guard on the latest row never fires, so everything proposed is written. */
  lemma WrittenIsProposed(
    agent: Agent, memory: Memory, db: Database, envelope: Option<Envelope>, now: Time, c: ClassifyResult,
    r: ObservationResult)
    requires agent.policy.Valid() && Intact(db) && Refines(memory, db, agent.deviceID)
    requires r == Proposal(agent, c, envelope, now) && WellShaped(r) && !KnownEvent(db, r)
    requires c.telemetry == EventOf(envelope)
    requires c.state.Some? <==> EventOf(envelope).Some? && Supersedes(EventOf(envelope).value, memory.state)
    requires c.state.Some? ==> c.state.value == StateOf(EventOf(envelope).value)
    requires c.state.Some? <==> c.disposition.Accepted?
    requires !c.disposition.Duplicate?
    requires EventOf(envelope).Some? ==> c.disposition.Accepted? || c.disposition.HistoryOnly?
    requires c.disposition.Accepted? ==> (c.suppressCommand <==> Late(agent, envelope))
    ensures var after := Written(db, r);
            && StoresObservation(
                 agent, memory.state, db, envelope, now, after,
                 Settled(c, DecidedCommand(agent.policy, c), CommitStored, memory.health))
            && Refines(Remembered(memory, c, CommitStored), after, agent.deviceID)
  {
    RestoredShape(db, agent.deviceID);
    hide EventOf, Late, Intact, Policy.Decide, CommandError, TelemetryError;
  }

  /** With memory equal to storage the guard on the latest row never holds anything back: what the
      classifier takes for newer is newer than the row. */
  lemma GuardNeverFires(
    agent: Agent, hp: HealthPolicy, memory: Memory, db: Database, envelope: Option<Envelope>, now: Time)
    requires agent.policy.Valid() && Intact(db) && Refines(memory, db, agent.deviceID)
    ensures var classification := Classify(Input(memory, hp, agent.policy.interval, envelope, now));
            classification.Classified? ==>
              var r := Proposal(agent, classification.result, envelope, now);
              r.Valid() && r.latestState.Some? ==> NewerThanRow(db, r.latestState.value)
  {
    var input := Input(memory, hp, agent.policy.interval, envelope, now);
    if Classify(input).Classified? {
      ProposalShape(agent, input);
      ValidIffWellShaped(Proposal(agent, Classify(input).result, envelope, now));
      RestoredShape(db, agent.deviceID);
    }
    hide Classify, Proposal, EventOf, ResultError, Intact, RestoredMemory;
  }

  // ---------------------------------------------------------------------------------------------
  // Durable before applied

  /** `rows` are exactly the command rows the database gained, in order; every earlier row stands. */
  predicate Gains(before: Database, after: Database, rows: seq<Dispatch>) {
    && (forall id :: id in before.commands ==> id in after.commands && after.commands[id] == before.commands[id])
    && (forall id :: id in after.commands ==>
          id in before.commands || exists i :: 0 <= i < |rows| && rows[i].eventID == id)
    && (forall i :: 0 <= i < |rows| ==>
          && rows[i].eventID in after.commands
          && rows[i].eventID !in before.commands
          && after.commands[rows[i].eventID].command == rows[i].command)
    && (forall i, j :: 0 <= i < j < |rows| ==> rows[i].eventID != rows[j].eventID)
  }

  /** Every command that reached the sink has its row, and belongs to a stored accepted event. */
  predicate Accounted(db: Database, sent: seq<Dispatch>) {
    && (forall i :: 0 <= i < |sent| ==>
          && sent[i].eventID in db.commands
          && db.commands[sent[i].eventID].command == sent[i].command
          && sent[i].eventID in db.telemetry
          && db.telemetry[sent[i].eventID].disposition.Accepted?)
    && (forall i, j :: 0 <= i < j < |sent| ==> sent[i].eventID != sent[j].eventID)
  }

  /** What was delivered is what was recorded, but for the last one when the process died between. */
  predicate Delivers(sent: seq<Dispatch>, recorded: seq<Dispatch>, ending: Ending) {
    || sent == recorded
    || (ending.Crashed? && recorded != [] && sent == recorded[..|recorded| - 1])
  }

  predicate SafeEffect(agent: Agent, db: Database, e: Effect) {
    && Intact(e.db)
    && Refines(e.memory, e.db, agent.deviceID)
    && Gains(db, e.db, e.recorded)
    && Delivers(e.sent, e.recorded, e.ending)
  }

  lemma SafeMemory(agent: Agent, db: Database, e: Effect)
    requires SafeEffect(agent, db, e)
    ensures e.memory == RestoredMemory(e.db, agent.deviceID)
  {
    hide Intact, Gains, Delivers, RestoredMemory;
  }

  lemma IntervalIsSafe(agent: Agent, hp: HealthPolicy, memory: Memory, db: Database, step: Step)
    requires agent.policy.Valid() && Intact(db) && Refines(memory, db, agent.deviceID)
    ensures SafeEffect(agent, db, Interval(agent, hp, memory, db, step))
  {
    hide *;
    var p := Process(agent, hp, memory, db, step.envelope, step.now, FailureOf(step.fate));
    ProcessMeaning(agent, hp, memory, db, step.envelope, step.now, FailureOf(step.fate));
    IntervalCases(agent, hp, memory, db, step);
    NoEffectIsSafe(agent, memory, db);
    if step.fate.Completes? || ProcessesDespite(step.fate) {
      DeliveredIsSafe(agent, memory, db, step, p);
    }
  }

  lemma IntervalStaysSafe(agent: Agent, hp: HealthPolicy, memory: Memory, db: Database, step: Step)
    requires agent.policy.Valid() && Intact(db) && Refines(memory, db, agent.deviceID)
    ensures var e := Interval(agent, hp, memory, db, step);
            Intact(e.db) && Refines(e.memory, e.db, agent.deviceID)
  {
    IntervalIsSafe(agent, hp, memory, db, step);
    hide Interval, Intact, Refines, Gains, Delivers;
  }

  predicate ProcessesDespite(fate: Fate) {
    || fate.StorageFails?
    || fate.CrashAfterCommit?
    || fate.SinkFails?
    || fate.CrashAfterApply?
    || fate.WriteFails?
  }

  /** An interval either ends before anything is processed, changing nothing, or is a processed
      observation and its delivery. */
  lemma IntervalCases(agent: Agent, hp: HealthPolicy, memory: Memory, db: Database, step: Step)
    requires agent.policy.Valid()
    ensures var e := Interval(agent, hp, memory, db, step);
            if step.fate.Completes? || ProcessesDespite(step.fate) then
              e == Delivered(agent, db,
                             Process(agent, hp, memory, db, step.envelope, step.now, FailureOf(step.fate)), step)
            else
              e == NoEffect(memory, db, e.ending) && !e.ending.Running?
  {
    hide Process, Delivered;
  }

  lemma NoEffectIsSafe(agent: Agent, memory: Memory, db: Database)
    requires Intact(db) && Refines(memory, db, agent.deviceID)
    ensures forall ending :: SafeEffect(agent, db, NoEffect(memory, db, ending))
  {
    GainsNothing(db);
  }

  lemma DeliveredIsSafe(agent: Agent, memory: Memory, db: Database, step: Step, p: Processing)
    requires agent.policy.Valid() && Intact(db) && Refines(memory, db, agent.deviceID)
    requires Intact(p.db) && Refines(p.memory, p.db, agent.deviceID)
    requires p.processed.Unprocessed? ==> p.db == db && p.memory == memory
    requires p.processed.Committed? ==>
               && p.processed.outcome.telemetry == EventOf(step.envelope)
               && (p.processed.status.CommitDuplicate? ==> p.db == db && p.processed.outcome.command.None?)
               && (p.processed.status.CommitStored? ==>
                     StoresObservation(agent, memory.state, db, step.envelope, step.now, p.db, p.processed.outcome))
    ensures SafeEffect(agent, db, Delivered(agent, db, p, step))
  {
    GainsNothing(db);
    if p.processed.Committed? {
      CommittedIsSafe(agent, memory, db, step, p);
    }
    hide StoresObservation, Intact, SnapshotOf;
  }

  lemma CommittedIsSafe(agent: Agent, memory: Memory, db: Database, step: Step, p: Processing)
    requires agent.policy.Valid() && Intact(db)
    requires p.processed.Committed?
    requires p.processed.outcome.telemetry == EventOf(step.envelope)
    requires p.processed.status.CommitDuplicate? ==> p.db == db && p.processed.outcome.command.None?
    requires p.processed.status.CommitStored? ==>
               StoresObservation(agent, memory.state, db, step.envelope, step.now, p.db, p.processed.outcome)
    ensures var o := p.processed.outcome;
            && RecordedBy(db, p.db, o) == DispatchOf(o)
            && Gains(db, p.db, DispatchOf(o))
  {
    var o := p.processed.outcome;
    if o.command.Some? {
      var id := o.telemetry.value.eventID;
      assert id !in db.telemetry;
      assert id !in db.commands;
      assert p.db.commands[id].command == o.command.value;
      assert DispatchOf(o)[0].eventID == id;
    }
  }

  /** What a record claims, read off the database before and after: the event kept, the state
      replaced, the command recorded, and the health a restart would find. */
  predicate TellsTheTruth(agent: Agent, before: Database, after: Database, envelope: Option<Envelope>, r: Record) {
    var event := EventOf(envelope);
    var health := SnapshotOf(after, agent.deviceID).health;
    && r.deviceID == agent.deviceID
    && r.telemetry == event
    && (r.storedHistory <==> event.Some? && event.value.eventID !in before.telemetry)
    && after.telemetry.Keys == before.telemetry.Keys + (if r.storedHistory then {event.value.eventID} else {})
    && (r.stateUpdated ==> event.Some?)
    && after.latest ==
       (if r.stateUpdated then before.latest[agent.deviceID := StateOf(event.value)] else before.latest)
    && (r.command.Some? ==> event.Some? && event.value.eventID !in before.commands)
    && after.commands.Keys == before.commands.Keys + (if r.command.Some? then {event.value.eventID} else {})
    && (r.command.Some? ==> after.commands[event.value.eventID].command == r.command.value)
    && r.healthStatus == health.status
    && r.healthReason == health.reason
    && r.healthTransitionAt == health.transitionTime
    && (r.disposition.Duplicate? <==> event.Some? && event.value.eventID in before.telemetry)
    && (r.disposition.Accepted? <==> r.stateUpdated)
  }

  /** Every record that is written is true of storage, whatever was observed. */
  lemma RecordTellsTheTruth(agent: Agent, hp: HealthPolicy, memory: Memory, db: Database, step: Step)
    requires agent.policy.Valid() && Intact(db) && Refines(memory, db, agent.deviceID)
    ensures var e := Interval(agent, hp, memory, db, step);
            e.records != [] ==>
              |e.records| == 1 && TellsTheTruth(agent, db, e.db, step.envelope, e.records[0])
  {
    hide *;
    var p := Process(agent, hp, memory, db, step.envelope, step.now, FailureOf(step.fate));
    ProcessMeaning(agent, hp, memory, db, step.envelope, step.now, FailureOf(step.fate));
    IntervalCases(agent, hp, memory, db, step);
    DeliveredRecord(agent, memory, db, step, p);
  }

  lemma DeliveredRecord(agent: Agent, memory: Memory, db: Database, step: Step, p: Processing)
    requires agent.policy.Valid() && Intact(db) && Intact(p.db)
    requires Refines(memory, db, agent.deviceID) && Refines(p.memory, p.db, agent.deviceID)
    requires p.processed.Committed? ==>
               && p.processed.outcome.telemetry == EventOf(step.envelope)
               && (p.processed.status.CommitDuplicate?
                   <==> EventOf(step.envelope).Some? && EventOf(step.envelope).value.eventID in db.telemetry)
               && (p.processed.status.CommitDuplicate? ==>
                     && p.db == db
                     && p.memory == memory
                     && p.processed.outcome ==
                        Outcome(Duplicate, AlreadyProcessed, EventOf(step.envelope), false, false, memory.health, None))
               && (p.processed.status.CommitStored? ==>
                     && StoresObservation(agent, memory.state, db, step.envelope, step.now, p.db, p.processed.outcome)
                     && p.memory.health == p.processed.outcome.health)
    ensures forall ending :: NoEffect(memory, db, ending).records == []
    ensures var e := Delivered(agent, db, p, step);
            && e.db == p.db
            && (e.records != [] ==>
                  |e.records| == 1 && TellsTheTruth(agent, db, p.db, step.envelope, e.records[0]))
  {
    hide EventOf, Late, Policy.Decide, TelemetryError, CommandError, TellsTheTruth, StoresObservation, SnapshotOf,
      Intact, RestoredMemory, Refines;
    if p.processed.Committed? {
      var o := p.processed.outcome;
      var r := BuildRecord(agent, ReceivedAtOrNow(step.envelope, step.now), o);
      HealthRead(agent, p);
      if p.processed.status.CommitDuplicate? {
        DuplicateTruth(agent, memory, db, step.envelope, r);
      } else {
        StoredTruth(agent, memory, db, step.envelope, step.now, p.db, o, r);
      }
    }
  }

  lemma HealthRead(agent: Agent, p: Processing)
    requires Refines(p.memory, p.db, agent.deviceID)
    ensures SnapshotOf(p.db, agent.deviceID).health == p.memory.health
  {
    hide SnapshotOf;
  }

  lemma DuplicateTruth(agent: Agent, memory: Memory, db: Database, envelope: Option<Envelope>, r: Record)
    requires EventOf(envelope).Some? && EventOf(envelope).value.eventID in db.telemetry
    requires SnapshotOf(db, agent.deviceID).health == memory.health
    requires r == BuildRecord(agent, r.receivedAt,
                              Outcome(Duplicate, AlreadyProcessed, EventOf(envelope), false, false, memory.health,
                                      None))
    ensures TellsTheTruth(agent, db, db, envelope, r)
  {
    hide EventOf, SnapshotOf;
  }

  lemma StoredTruth(
    agent: Agent, memory: Memory, db: Database, envelope: Option<Envelope>, now: Time, after: Database, o: Outcome,
    r: Record)
    requires agent.policy.Valid() && Intact(db)
    requires o.telemetry == EventOf(envelope) && SnapshotOf(after, agent.deviceID).health == o.health
    requires StoresObservation(agent, memory.state, db, envelope, now, after, o)
    requires r == BuildRecord(agent, r.receivedAt, o)
    ensures TellsTheTruth(agent, db, after, envelope, r)
  {
    if EventOf(envelope).Some? {
      CommandsBelongToEvents(db, EventOf(envelope).value.eventID);
    }
    hide EventOf, SnapshotOf, Late, Policy.Decide, Intact, Supersedes;
  }

  lemma CommandsBelongToEvents(db: Database, id: string)
    requires Intact(db) && id !in db.telemetry
    ensures id !in db.commands
  {
  }

  lemma GainsCompose(a: Database, b: Database, c: Database, first: seq<Dispatch>, second: seq<Dispatch>)
    requires Gains(a, b, first) && Gains(b, c, second)
    ensures Gains(a, c, first + second)
  {
    var rows := first + second;
    forall id | id in c.commands && id !in a.commands
      ensures exists i :: 0 <= i < |rows| && rows[i].eventID == id
    {
      if id in b.commands {
        var i :| 0 <= i < |first| && first[i].eventID == id;
        assert rows[i] == first[i];
      } else {
        var i :| 0 <= i < |second| && second[i].eventID == id;
        assert rows[|first| + i] == second[i];
      }
    }
  }

  lemma GainsNothing(db: Database)
    ensures Gains(db, db, [])
  {
  }

  lemma DeliversCompose(
    sent: seq<Dispatch>, sent': seq<Dispatch>, recorded: seq<Dispatch>, recorded': seq<Dispatch>, ending: Ending)
    requires sent == recorded && Delivers(sent', recorded', ending)
    ensures Delivers(sent + sent', recorded + recorded', ending)
  {
    if sent' != recorded' {
      var all := recorded + recorded';
      assert all[..|all| - 1] == recorded + recorded'[..|recorded'| - 1];
    }
  }

  /** Memory refines storage at the start of every interval of every loop, whatever is observed and
      whatever fails; and the loop's deliveries are its recorded commands. */
  lemma {:induction false} LoopIsSafe(
    agent: Agent, hp: HealthPolicy, memory: Memory, db: Database, script: seq<Step>)
    requires agent.policy.Valid() && Intact(db) && Refines(memory, db, agent.deviceID)
    ensures SafeEffect(agent, db, Loop(agent, hp, memory, db, script))
    decreases |script|
  {
    if script == [] {
      GainsNothing(db);
    } else {
      var first := Interval(agent, hp, memory, db, script[0]);
      IntervalIsSafe(agent, hp, memory, db, script[0]);
      if first.ending.Running? {
        var rest := Loop(agent, hp, first.memory, first.db, script[1..]);
        LoopIsSafe(agent, hp, first.memory, first.db, script[1..]);
        GainsCompose(db, first.db, rest.db, first.recorded, rest.recorded);
        DeliversCompose(first.sent, rest.sent, first.recorded, rest.recorded, rest.ending);
      }
    }
  }

  /** One run: its deliveries, in order, are the command rows it added, with at most the last missing. */
  lemma RunIsSafe(agent: Agent, db: Database, script: seq<Step>, snapshotFails: bool := false)
    requires agent.policy.Valid() && Intact(db)
    ensures var e := Run(agent, db, script, snapshotFails);
            && Intact(e.db)
            && Gains(db, e.db, e.recorded)
            && Delivers(e.sent, e.recorded, e.ending)
  {
    GainsNothing(db);
    var hp := NewHealthPolicy(agent.policy.interval, 0, 0);
    if !Blank(agent.deviceID) && hp.Ok? {
      LoopIsSafe(agent, hp.value, RestoredMemory(db, agent.deviceID), db, Bounded(agent, script));
    }
    hide Loop, NewHealthPolicy, SnapshotOf, Blank, Intact, Gains, Bounded;
  }

  /** Runs one after another on one database: restarts, other devices, other batteries. */
  datatype Launch = Launch(agent: Agent, script: seq<Step>, snapshotFails: bool) {
    function On(db: Database): Effect
      requires agent.policy.Valid()
    {
      Run(agent, db, script, snapshotFails)
    }
  }

  predicate Launchable(launches: seq<Launch>) {
    forall i :: 0 <= i < |launches| ==> launches[i].agent.policy.Valid()
  }

  datatype Life = Life(db: Database, sent: seq<Dispatch>)

  function Lifetime(db: Database, launches: seq<Launch>): Life
    requires Launchable(launches)
  {
    if launches == [] then Life(db, [])
    else
      var earlier := Lifetime(db, launches[..|launches| - 1]);
      var e := launches[|launches| - 1].On(earlier.db);
      Life(e.db, earlier.sent + e.sent)
  }

  /** Over all runs, failures, crashes and restarts on one database: every command that ever reached
      the battery was durable with the same content and belongs to a stored accepted event, and no
      event's command was delivered twice. */
  lemma {:induction false} DurableBeforeApplied(db: Database, launches: seq<Launch>)
    requires Intact(db) && Launchable(launches)
    ensures var life := Lifetime(db, launches);
            && Intact(life.db)
            && Accounted(life.db, life.sent)
            && (forall i :: 0 <= i < |life.sent| ==> life.sent[i].eventID !in db.commands)
            && (forall id :: id in db.commands ==> id in life.db.commands && life.db.commands[id] == db.commands[id])
  {
    hide *;
    LifetimeUnfolds(db, launches);
    if launches != [] {
      var init := launches[..|launches| - 1];
      var last := launches[|launches| - 1];
      DurableBeforeApplied(db, init);
      var earlier := Lifetime(db, init);
      var e := last.On(earlier.db);
      LaunchIsSafe(last, earlier.db);
      AccountedExtends(earlier.db, e.db, earlier.sent, e.sent, e.recorded, e.ending);
    }
  }

  lemma LaunchIsSafe(launch: Launch, db: Database)
    requires launch.agent.policy.Valid() && Intact(db)
    ensures var e := launch.On(db);
            && Intact(e.db)
            && Gains(db, e.db, e.recorded)
            && Delivers(e.sent, e.recorded, e.ending)
  {
    RunIsSafe(launch.agent, db, launch.script, launch.snapshotFails);
    hide Run, Intact, Gains, Delivers;
  }

  lemma LifetimeUnfolds(db: Database, launches: seq<Launch>)
    requires Launchable(launches)
    ensures launches == [] ==> Lifetime(db, launches) == Life(db, []) && Accounted(db, [])
    ensures launches != [] ==>
              var init := launches[..|launches| - 1];
              var last := launches[|launches| - 1];
              && Launchable(init)
              && last.agent.policy.Valid()
              && var earlier := Lifetime(db, init);
                 var e := last.On(earlier.db);
                 Lifetime(db, launches) == Life(e.db, earlier.sent + e.sent)
  {
    hide Launch.On;
  }

  lemma AccountedExtends(
    before: Database, after: Database, sent: seq<Dispatch>, more: seq<Dispatch>, recorded: seq<Dispatch>,
    ending: Ending)
    requires Intact(before) && Intact(after) && Accounted(before, sent)
    requires Gains(before, after, recorded) && Delivers(more, recorded, ending)
    ensures Accounted(after, sent + more)
    ensures forall i :: 0 <= i < |more| ==> more[i].eventID !in before.commands
    ensures forall id :: id in before.commands ==> id in after.commands && after.commands[id] == before.commands[id]
  {
    forall i | 0 <= i < |more| ensures more[i] == recorded[i] {
    }
  }
}
