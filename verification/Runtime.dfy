/** The edge runtime: one interval from observation to record, and the loop over intervals. What the
    outside world does to an interval — cancellation, exhaustion, failure, a crash — is given with it. */
module Runtime {
  import opened Basics
  import opened Observations
  import opened LatestState
  import opened Health
  import opened ControlPolicy
  import opened Classifier
  import opened Contracts
  import opened Storage

  datatype Agent = Agent(id: string, deviceID: string, policy: Policy, maxIntervals: int)

  /** The loop's own state. */
  datatype Memory = Memory(state: State, health: DeviceHealth)

  /** What befalls one interval. `Cancelled` is seen before the source is asked, at the head of the
      loop or while waiting for the tick. A crash leaves whatever was durable or delivered by then. */
  datatype Fate =
    | Completes
    | Cancelled
    | Exhausted
    | SourceFails
    | CrashBeforeCommit
    | StorageFails(failure: Failure)
    | CrashAfterCommit
    | SinkFails
    | CrashAfterApply
    | WriteFails

  datatype Step = Step(envelope: Option<Envelope>, now: Time, fate: Fate)

  datatype Outcome = Outcome(
    disposition: Disposition,
    reason: Reason,
    telemetry: Option<Telemetry>,
    stateUpdated: bool,
    storedHistory: bool,
    health: DeviceHealth,
    command: Option<Command>)

  datatype Record = Record(
    agentID: string,
    deviceID: string,
    receivedAt: Time,
    disposition: Disposition,
    dispositionReason: Reason,
    telemetry: Option<Telemetry>,
    storedHistory: bool,
    stateUpdated: bool,
    healthStatus: HealthStatus,
    healthReason: Reason,
    healthTransitionAt: Time,
    command: Option<Command>)

  /** A non-nil command on its way to the battery, with the event it was decided from. */
  datatype Dispatch = Dispatch(eventID: string, command: Command)

  /** A durable health evaluation: the status stored, the time it was evaluated at, and the disposition
      of the observation it came with. */
  datatype Beat = Beat(status: HealthStatus, at: Time, disposition: Disposition)

  datatype Ending = Running | Finished | CleanStop | Failed | Crashed

  // ---------------------------------------------------------------------------------------------
  // One interval as a value

  function Input(memory: Memory, hp: HealthPolicy, interval: int, envelope: Option<Envelope>, now: Time)
    : ClassifyInput
  {
    ClassifyInput(envelope, memory.state, memory.health, hp, interval, now)
  }

  function DecidedCommand(policy: Policy, c: ClassifyResult): Option<Command>
    requires policy.Valid()
  {
    if c.disposition.Accepted? && c.state.Some? && !c.suppressCommand then Some(policy.Decide(c.state.value)) else None
  }

  function BuildObservationResult(
    deviceID: string, receivedAt: Time, c: ClassifyResult, command: Option<Command>): ObservationResult
  {
    if c.telemetry.None? then ObservationResult(deviceID, None, None, None, c.health)
    else
      ObservationResult(
        deviceID,
        Some(TelemetryRecord(c.telemetry.value, receivedAt, c.disposition, c.reason)),
        c.state,
        if command.None? then None else Some(CommandRecord(c.telemetry.value.eventID, command.value, receivedAt)),
        c.health)
  }

  /** The record of durable facts an observation asks the repository to commit. */
  function Proposal(agent: Agent, c: ClassifyResult, envelope: Option<Envelope>, now: Time): ObservationResult
    requires agent.policy.Valid()
  {
    BuildObservationResult(agent.deviceID, ReceivedAtOrNow(envelope, now), c, DecidedCommand(agent.policy, c))
  }

  /** The reportable outcome once the commit has settled whether the event was new. */
  function Settled(c: ClassifyResult, command: Option<Command>, status: CommitStatus, prior: DeviceHealth): Outcome {
    match status
    case CommitDuplicate =>
      Outcome(Duplicate, AlreadyProcessed, c.telemetry, false, false, prior, None)
    case CommitStored =>
      Outcome(c.disposition, c.reason, c.telemetry, c.state.Some?, c.telemetry.Some?, c.health, command)
  }

  function Remembered(memory: Memory, c: ClassifyResult, status: CommitStatus): Memory {
    match status
    case CommitDuplicate => memory
    case CommitStored => Memory(if c.state.Some? then c.state.value else memory.state, c.health)
  }

  function BuildRecord(agent: Agent, receivedAt: Time, o: Outcome): Record {
    Record(agent.id, agent.deviceID, receivedAt, o.disposition, o.reason, o.telemetry, o.storedHistory,
           o.stateUpdated, o.health.status, o.health.reason, o.health.transitionTime, o.command)
  }

  /** Classification, commit and settlement, short of delivery. */
  datatype Processed =
    | Unprocessed(ending: Ending)
    | Committed(status: CommitStatus, outcome: Outcome)

  datatype Processing = Processing(db: Database, memory: Memory, processed: Processed)

  function Process(
    agent: Agent, hp: HealthPolicy, memory: Memory, db: Database, envelope: Option<Envelope>, now: Time,
    failure: Failure): Processing
    requires agent.policy.Valid()
  {
    match Classify(Input(memory, hp, agent.policy.interval, envelope, now))
    case Panicked => Processing(db, memory, Unprocessed(Crashed))
    case Classified(c) =>
      var commit := Commit(db, Proposal(agent, c, envelope, now), failure);
      match commit.status
      case Err(_) => Processing(commit.db, memory, Unprocessed(Failed))
      case Ok(status) =>
        Processing(
          commit.db,
          Remembered(memory, c, status),
          Committed(status, Settled(c, DecidedCommand(agent.policy, c), status, memory.health)))
  }

  /** Everything one interval, or a stretch of intervals, does: the durable state and the loop's
      memory it leaves, the commands that reached the sink, the command rows and health evaluations
      that became durable, the sink calls in all, the records written, and whether the loop goes on. */
  datatype Effect = Effect(
    db: Database,
    memory: Memory,
    sent: seq<Dispatch>,
    recorded: seq<Dispatch>,
    beats: seq<Beat>,
    applies: nat,
    records: seq<Record>,
    ending: Ending)

  function NoEffect(memory: Memory, db: Database, ending: Ending): Effect {
    Effect(db, memory, [], [], [], 0, [], ending)
  }

  function DispatchOf(o: Outcome): seq<Dispatch> {
    if o.command.Some? && o.telemetry.Some? then [Dispatch(o.telemetry.value.eventID, o.command.value)] else []
  }

  /** The command row a commit added, read off the database itself. */
  function RecordedBy(before: Database, after: Database, o: Outcome): seq<Dispatch> {
    if o.telemetry.None? then []
    else
      var id := o.telemetry.value.eventID;
      if id in after.commands && id !in before.commands then [Dispatch(id, after.commands[id].command)] else []
  }

  function FailureOf(fate: Fate): Failure {
    if fate.StorageFails? then fate.failure else NoFailure
  }

  function EndingOf(fate: Fate): Ending {
    match fate
    case Completes => Running
    case SinkFails | WriteFails => Failed
    case CrashAfterCommit | CrashAfterApply => Crashed
    case _ => Running
  }

  function Interval(agent: Agent, hp: HealthPolicy, memory: Memory, db: Database, step: Step): Effect
    requires agent.policy.Valid()
  {
    match step.fate
    case Cancelled => NoEffect(memory, db, CleanStop)
    case Exhausted => NoEffect(memory, db, CleanStop)
    case SourceFails => NoEffect(memory, db, Failed)
    case CrashBeforeCommit => NoEffect(memory, db, Crashed)
    case _ => Delivered(agent, db, Process(agent, hp, memory, db, step.envelope, step.now, FailureOf(step.fate)), step)
  }

  /** Delivery of a processed observation: apply, then write, as far as the fate lets it come. */
  function Delivered(agent: Agent, before: Database, p: Processing, step: Step): Effect {
    match p.processed
    case Unprocessed(ending) => NoEffect(p.memory, p.db, ending)
    case Committed(status, outcome) =>
      var reached := !step.fate.CrashAfterCommit?;
      Effect(
        p.db,
        p.memory,
        if reached then DispatchOf(outcome) else [],
        RecordedBy(before, p.db, outcome),
        if status.CommitStored? then
          [Beat(outcome.health.status, ReceivedAtOrNow(step.envelope, step.now), outcome.disposition)]
        else [],
        if reached then 1 else 0,
        if EndingOf(step.fate).Running? then
          [BuildRecord(agent, ReceivedAtOrNow(step.envelope, step.now), outcome)]
        else [],
        EndingOf(step.fate))
  }

  // ---------------------------------------------------------------------------------------------
  // The loop as a value

  function Then(first: Effect, second: Effect): Effect {
    Effect(second.db, second.memory, first.sent + second.sent, first.recorded + second.recorded,
           first.beats + second.beats, first.applies + second.applies, first.records + second.records, second.ending)
  }

  /** The loop over a finite script; `Running` after the last step means the loop is still alive. */
  function Loop(agent: Agent, hp: HealthPolicy, memory: Memory, db: Database, script: seq<Step>): Effect
    requires agent.policy.Valid()
    decreases |script|
  {
    if script == [] then NoEffect(memory, db, Running)
    else
      var first := Interval(agent, hp, memory, db, script[0]);
      if first.ending.Running? then Then(first, Loop(agent, hp, first.memory, first.db, script[1..])) else first
  }

  lemma LoopStops(agent: Agent, hp: HealthPolicy, memory: Memory, db: Database)
    requires agent.policy.Valid()
    ensures Loop(agent, hp, memory, db, []) == NoEffect(memory, db, Running)
    ensures var e := NoEffect(memory, db, Running);
            && e.db == db && e.memory == memory && e.records == [] && e.beats == [] && e.sent == [] && e.applies == 0
            && e.ending == Running
  {
  }

  lemma LoopGoesOn(agent: Agent, hp: HealthPolicy, memory: Memory, db: Database, script: seq<Step>)
    requires agent.policy.Valid() && script != []
    ensures var first := Interval(agent, hp, memory, db, script[0]);
            var rest := Loop(agent, hp, first.memory, first.db, script[1..]);
            var all := Loop(agent, hp, memory, db, script);
            && all == (if first.ending.Running? then Then(first, rest) else first)
            && Then(first, rest).ending == rest.ending
            && Then(first, rest).db == rest.db
            && Then(first, rest).memory == rest.memory
            && Then(first, rest).sent == first.sent + rest.sent
            && Then(first, rest).records == first.records + rest.records
            && Then(first, rest).applies == first.applies + rest.applies
            && Then(first, rest).beats == first.beats + rest.beats
  {
    hide Interval;
  }

  function Bounded<T>(agent: Agent, script: seq<T>): seq<T> {
    if 0 < agent.maxIntervals < |script| then script[..agent.maxIntervals] else script
  }

  function RestoredMemory(db: Database, deviceID: string): Memory {
    Memory(SnapshotOf(db, deviceID).state, SnapshotOf(db, deviceID).health)
  }

  /** One run of the program: the configuration checks, the restored snapshot unless reading it fails,
      then the loop. */
  function Run(agent: Agent, db: Database, script: seq<Step>, snapshotFails: bool := false): Effect
    requires agent.policy.Valid()
  {
    var hp := NewHealthPolicy(agent.policy.interval, 0, 0);
    if Blank(agent.deviceID) || hp.Err? || snapshotFails then NoEffect(Memory(ZERO_STATE, ZERO_HEALTH), db, Failed)
    else
      var effect := Loop(agent, hp.value, RestoredMemory(db, agent.deviceID), db, Bounded(agent, script));
      if effect.ending.Running? && 0 < agent.maxIntervals <= |script| then effect.(ending := Finished) else effect
  }

  // ---------------------------------------------------------------------------------------------
  // The same, as the program performs it

  /** The battery side and the output stream of one agent. */
  class Outside {
    var sent: seq<Dispatch>
    var applies: nat
    var records: seq<Record>

    constructor ()
      ensures sent == [] && applies == 0 && records == []
    {
      sent, applies, records := [], 0, [];
    }

    /** `CommandSink.Apply` and, when it returns, whether it succeeded. */
    method Apply(outcome: Outcome, fate: Fate) returns (ok: bool)
      modifies this`sent, this`applies
      ensures sent == old(sent) + DispatchOf(outcome)
      ensures applies == old(applies) + 1
      ensures ok <==> !fate.SinkFails?
    {
      if outcome.command.Some? && outcome.telemetry.Some? {
        sent := sent + [Dispatch(outcome.telemetry.value.eventID, outcome.command.value)];
      }
      applies := applies + 1;
      ok := !fate.SinkFails?;
    }

    method Write(record: Record, fate: Fate) returns (ok: bool)
      modifies this`records
      ensures ok <==> !fate.WriteFails?
      ensures records == old(records) + if ok then [record] else []
    {
      if fate.WriteFails? {
        return false;
      }
      records := records + [record];
      ok := true;
    }
  }

  /** Classify, decide and commit: the part of `processInterval` before anything is delivered. */
  method ProcessObservation(
    agent: Agent, hp: HealthPolicy, state: State, health: DeviceHealth, repository: Repository,
    envelope: Option<Envelope>, now: Time, failure: Failure)
    returns (newState: State, newHealth: DeviceHealth, processed: Processed)
    requires agent.policy.Valid()
    modifies repository
    ensures Processing(repository.Contents(), Memory(newState, newHealth), processed)
            == Process(agent, hp, Memory(state, health), old(repository.Contents()), envelope, now, failure)
  {
    newState, newHealth := state, health;
    var classification := Classify(ClassifyInput(envelope, state, health, hp, agent.policy.interval, now));
    if classification.Panicked? {
      return newState, newHealth, Unprocessed(Crashed);
    }
    var c := classification.result;
    var command: Option<Command> := None;
    if c.disposition.Accepted? && c.state.Some? && !c.suppressCommand {
      command := Some(agent.policy.Decide(c.state.value));
    }
    var receivedAt := ReceivedAtOrNow(envelope, now);
    var observationResult := BuildObservationResult(agent.deviceID, receivedAt, c, command);

    var status := repository.CommitProcessing(observationResult, failure);
    if status.Err? {
      return newState, newHealth, Unprocessed(Failed);
    }
    var result := Outcome(c.disposition, c.reason, c.telemetry, c.state.Some?, c.telemetry.Some?, c.health, command);
    if status.value.CommitDuplicate? {
      result := result.(
        disposition := Duplicate, reason := AlreadyProcessed, stateUpdated := false, storedHistory := false,
        health := health, command := None);
    } else {
      if c.state.Some? {
        newState := c.state.value;
      }
      newHealth := c.health;
    }
    processed := Committed(status.value, result);
  }

  /** `processInterval`: the new memory, and `Running` when the loop may go on. */
  method ProcessInterval(
    agent: Agent, hp: HealthPolicy, state: State, health: DeviceHealth, repository: Repository, outside: Outside,
    step: Step)
    returns (newState: State, newHealth: DeviceHealth, ending: Ending, ghost effect: Effect)
    requires agent.policy.Valid()
    modifies repository, outside
    ensures effect == Interval(agent, hp, Memory(state, health), old(repository.Contents()), step)
    ensures repository.Contents() == effect.db
    ensures Memory(newState, newHealth) == effect.memory
    ensures outside.sent == old(outside.sent) + effect.sent
    ensures outside.applies == old(outside.applies) + effect.applies
    ensures outside.records == old(outside.records) + effect.records
    ensures ending == effect.ending
  {
    effect := Interval(agent, hp, Memory(state, health), repository.Contents(), step);
    newState, newHealth := state, health;
    if step.fate.Cancelled? || step.fate.Exhausted? {
      return newState, newHealth, CleanStop, effect;
    }
    if step.fate.SourceFails? {
      return newState, newHealth, Failed, effect;
    }
    if step.fate.CrashBeforeCommit? {
      return newState, newHealth, Crashed, effect;
    }
    var processed;
    newState, newHealth, processed := ProcessObservation(
      agent, hp, state, health, repository, step.envelope, step.now, FailureOf(step.fate));
    if processed.Unprocessed? {
      return newState, newHealth, processed.ending, effect;
    }
    if step.fate.CrashAfterCommit? {
      return newState, newHealth, Crashed, effect;
    }
    var ok := outside.Apply(processed.outcome, step.fate);
    if !ok {
      return newState, newHealth, Failed, effect;
    }
    if step.fate.CrashAfterApply? {
      return newState, newHealth, Crashed, effect;
    }
    ok := outside.Write(BuildRecord(agent, ReceivedAtOrNow(step.envelope, step.now), processed.outcome), step.fate);
    ending := if ok then Running else Failed;
  }

  lemma ThenAssociative(a: Effect, b: Effect, c: Effect)
    ensures Then(Then(a, b), c) == Then(a, Then(b, c))
  {
  }

  lemma LoopUnrolls(
    agent: Agent, hp: HealthPolicy, done: Effect, effect: Effect, steps: seq<Step>, count: nat)
    requires agent.policy.Valid()
    requires count < |steps|
    requires effect == Interval(agent, hp, done.memory, done.db, steps[count])
    ensures Then(done, Loop(agent, hp, done.memory, done.db, steps[count..])) ==
            if effect.ending.Running?
            then Then(Then(done, effect), Loop(agent, hp, effect.memory, effect.db, steps[count + 1..]))
            else Then(done, effect)
  {
    assert steps[count..][1..] == steps[count + 1..];
    ThenAssociative(done, effect, Loop(agent, hp, effect.memory, effect.db, steps[count + 1..]));
  }

  lemma NothingDone(agent: Agent, hp: HealthPolicy, memory: Memory, db: Database, steps: seq<Step>)
    requires agent.policy.Valid()
    ensures var e := Loop(agent, hp, memory, db, steps);
            && e == Then(NoEffect(memory, db, Running), Loop(agent, hp, memory, db, steps[0..]))
            && NoEffect(memory, db, Running) == Effect(db, memory, [], [], [], 0, [], Running)
  {
    assert steps[0..] == steps;
    ThenNothing(memory, db, Loop(agent, hp, memory, db, steps));
    hide Loop, Then;
  }

  lemma ThenNothing(memory: Memory, db: Database, e: Effect)
    ensures e == Then(NoEffect(memory, db, Running), e)
  {
  }

  lemma ThenParts(a: Effect, b: Effect)
    ensures var c := Then(a, b);
            && c.db == b.db && c.memory == b.memory && c.ending == b.ending
            && c.sent == a.sent + b.sent
            && c.applies == a.applies + b.applies
            && c.records == a.records + b.records
  {
  }

  /** The loop of `Run`, one interval after another until something ends it. */
  method RunLoop(
    agent: Agent, hp: HealthPolicy, initialState: State, initialHealth: DeviceHealth, repository: Repository,
    outside: Outside, steps: seq<Step>)
    returns (ending: Ending)
    requires agent.policy.Valid()
    modifies repository, outside
    ensures var e := Loop(agent, hp, Memory(initialState, initialHealth), old(repository.Contents()), steps);
            && repository.Contents() == e.db
            && outside.sent == old(outside.sent) + e.sent
            && outside.applies == old(outside.applies) + e.applies
            && outside.records == old(outside.records) + e.records
            && ending == e.ending
  {
    hide *;
    var state, health := initialState, initialHealth;
    ghost var done := NoEffect(Memory(state, health), repository.Contents(), Running);
    ghost var whole := Loop(agent, hp, Memory(state, health), repository.Contents(), steps);
    NothingDone(agent, hp, Memory(state, health), repository.Contents(), steps);
    ending := Running;
    var count := 0;
    while count < |steps|
      invariant 0 <= count <= |steps|
      invariant done.db == repository.Contents() && done.memory == Memory(state, health)
      invariant whole == Then(done, Loop(agent, hp, done.memory, done.db, steps[count..]))
      invariant outside.sent == old(outside.sent) + done.sent
      invariant outside.applies == old(outside.applies) + done.applies
      invariant outside.records == old(outside.records) + done.records
      invariant ending == Running == done.ending
    {
      ghost var effect;
      state, health, ending, effect :=
        ProcessInterval(agent, hp, state, health, repository, outside, steps[count]);
      LoopUnrolls(agent, hp, done, effect, steps, count);
      ThenParts(done, effect);
      done := Then(done, effect);
      if !ending.Running? {
        return;
      }
      count := count + 1;
    }
    LoopOver(agent, hp, done, steps[count..]);
  }

  lemma LoopOver(agent: Agent, hp: HealthPolicy, done: Effect, rest: seq<Step>)
    requires agent.policy.Valid() && rest == [] && done.ending.Running?
    ensures Then(done, Loop(agent, hp, done.memory, done.db, rest)) == done
  {
  }

  /** `Run`: check the configuration, restore the snapshot, loop. */
  method RunAgent(
    agent: Agent, repository: Repository, outside: Outside, script: seq<Step>, snapshotFails: bool)
    returns (ending: Ending)
    requires agent.policy.Valid()
    modifies repository, outside
    ensures var e := Run(agent, old(repository.Contents()), script, snapshotFails);
            && repository.Contents() == e.db
            && outside.sent == old(outside.sent) + e.sent
            && outside.applies == old(outside.applies) + e.applies
            && outside.records == old(outside.records) + e.records
            && ending == e.ending
  {
    if Blank(agent.deviceID) {
      return Failed;
    }
    var hp := NewHealthPolicy(agent.policy.interval, 0, 0);
    if hp.Err? {
      return Failed;
    }
    var snapshot, _ := repository.Snapshot(agent.deviceID, snapshotFails);
    if snapshot.Err? {
      return Failed;
    }
    ending := RunLoop(
      agent, hp.value, snapshot.value.state, snapshot.value.health, repository, outside, Bounded(agent, script));
    if ending.Running? && 0 < agent.maxIntervals <= |script| {
      ending := Finished;
    }
  }
}
